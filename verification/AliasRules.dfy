/** The two rules that follow local type aliases by "or" alone: no-object-parameters looks for
    the `object` keyword, no-unknown-returns looks for `unknown` and also opens promises. Both cut
    cycles with a visited set that is copied along each branch. */
module AliasRules {
  import opened Prelude
  import opened TsTypes

  datatype Rule = NoObjectParameters | NoUnknownReturns

  datatype AliasDeclaration = AliasDeclaration(name: string, generic: bool, body: TsType)

  /** A top-level statement, with any `export` around it already removed. */
  datatype Statement = AliasStatement(alias: AliasDeclaration) | OtherStatement(text: string)

  function Target(rule: Rule): TsType {
    match rule
    case NoObjectParameters => ObjectKeyword
    case NoUnknownReturns => UnknownKeyword
  }

  predicate IsPromise(rule: Rule, t: TsType) {
    rule == NoUnknownReturns && t.TypeReference? &&
    (t.identifier == Some("Promise") || t.identifier == Some("PromiseLike"))
  }

  /** The alias a type names without applying it to arguments. */
  function AliasName(t: TsType): Option<string> {
    if t.TypeReference? && t.arguments == [] then t.identifier else None
  }

  /** The recursive search of both rules. */
  predicate Resolves(rule: Rule, aliases: map<string, AliasDeclaration>, shadowed: set<string>,
                     t: TsType, visited: set<string>)
    decreases aliases.Keys - visited, t
  {
    if t == Target(rule) then true
    else if t.Parenthesized? then Resolves(rule, aliases, shadowed, t.inner, visited)
    else if t.UnionType? then
      exists i :: 0 <= i < |t.types| && Resolves(rule, aliases, shadowed, t.types[i], visited)
    else if IsPromise(rule, t) then
      |t.arguments| > 0 && Resolves(rule, aliases, shadowed, t.arguments[0], visited)
    else
      var name := AliasName(t);
      if name.None? || name.value in visited || name.value in shadowed then false
      else if name.value !in aliases || aliases[name.value].generic then false
      else
        assert aliases.Keys - (visited + {name.value}) < aliases.Keys - visited by {
          assert name.value in aliases.Keys - visited;
        }
        Resolves(rule, aliases, shadowed, aliases[name.value].body, visited + {name.value})
  }

  // ----- The alias table -----

  /** no-object-parameters records only aliases without type parameters; no-unknown-returns records all. */
  predicate Records(rule: Rule, statement: Statement) {
    statement.AliasStatement? && (rule == NoObjectParameters ==> !statement.alias.generic)
  }

  ghost predicate IsLastRecord(rule: Rule, program: seq<Statement>, name: string, at: int) {
    && 0 <= at < |program|
    && Records(rule, program[at]) && program[at].alias.name == name
    && forall j :: at < j < |program| && Records(rule, program[j]) ==> program[j].alias.name != name
  }

  /** The `Program` visitor: the table maps each name to its last recorded declaration. */
  method CollectAliases(rule: Rule, program: seq<Statement>) returns (aliases: map<string, AliasDeclaration>)
    ensures forall name :: name in aliases <==> exists at :: IsLastRecord(rule, program, name, at)
    ensures forall name, at :: IsLastRecord(rule, program, name, at) ==>
              name in aliases && aliases[name] == program[at].alias
    ensures rule == NoObjectParameters ==> forall name :: name in aliases ==> !aliases[name].generic
    ensures forall at :: 0 <= at < |program| && program[at].AliasStatement? ==>
              rule == NoUnknownReturns || !program[at].alias.generic ==> program[at].alias.name in aliases
  {
    aliases := map[];
    ghost var last: map<string, int> := map[];
    for k := 0 to |program|
      invariant last.Keys == aliases.Keys
      invariant forall name :: name in aliases ==>
        IsLastRecord(rule, program[..k], name, last[name]) && aliases[name] == program[last[name]].alias
      invariant forall j :: 0 <= j < k && Records(rule, program[j]) ==> program[j].alias.name in aliases
    {
      if Records(rule, program[k]) {
        aliases := aliases[program[k].alias.name := program[k].alias];
        last := last[program[k].alias.name := k];
      }
    }
    assert program[..|program|] == program;
    forall name, at | IsLastRecord(rule, program, name, at)
      ensures name in aliases && aliases[name] == program[at].alias
    {
      assert program[at].alias.name in aliases;
      assert last[name] == at;
    }
  }

  // ----- Reference meaning: plain reachability, with no visited set -----

  /** The alias that a type expands to in one step. */
  function Expanded(rule: Rule, aliases: map<string, AliasDeclaration>, shadowed: set<string>,
                    t: TsType): Option<string> {
    var name := AliasName(t);
    if !IsPromise(rule, t) && name.Some? && name.value !in shadowed && name.value in aliases &&
       !aliases[name.value].generic
    then name else None
  }

  predicate Leads(rule: Rule, aliases: map<string, AliasDeclaration>, shadowed: set<string>, t: TsType, u: TsType) {
    || (t.Parenthesized? && u == t.inner)
    || (t.UnionType? && u in t.types)
    || (IsPromise(rule, t) && |t.arguments| > 0 && u == t.arguments[0])
    || (var name := Expanded(rule, aliases, shadowed, t); name.Some? && u == aliases[name.value].body)
  }

  ghost predicate IsPath(rule: Rule, aliases: map<string, AliasDeclaration>, shadowed: set<string>, path: seq<TsType>) {
    && |path| > 0
    && path[|path| - 1] == Target(rule)
    && forall i :: 0 <= i < |path| - 1 ==> Leads(rule, aliases, shadowed, path[i], path[i + 1])
  }

  ghost predicate Reaches(rule: Rule, aliases: map<string, AliasDeclaration>, shadowed: set<string>, t: TsType) {
    exists path :: IsPath(rule, aliases, shadowed, path) && path[0] == t
  }

  ghost predicate Avoids(rule: Rule, aliases: map<string, AliasDeclaration>, shadowed: set<string>,
                         path: seq<TsType>, names: set<string>) {
    forall i :: 0 <= i < |path| ==>
      var name := Expanded(rule, aliases, shadowed, path[i]); name.None? || name.value !in names
  }

  lemma Prepend(rule: Rule, aliases: map<string, AliasDeclaration>, shadowed: set<string>, t: TsType, u: TsType)
    requires Reaches(rule, aliases, shadowed, u) && Leads(rule, aliases, shadowed, t, u)
    ensures Reaches(rule, aliases, shadowed, t)
  {
    var path :| IsPath(rule, aliases, shadowed, path) && path[0] == u;
    var longer := [t] + path;
    forall i | 0 <= i < |longer| - 1
      ensures Leads(rule, aliases, shadowed, longer[i], longer[i + 1])
    {
      if i > 0 { assert longer[i] == path[i - 1] && longer[i + 1] == path[i]; }
    }
    assert IsPath(rule, aliases, shadowed, longer) && longer[0] == t;
  }

  /** Whatever the search accepts is reachable, whatever it has already visited. */
  lemma {:induction false} ResolvesIsSound(rule: Rule, aliases: map<string, AliasDeclaration>, shadowed: set<string>,
                                           t: TsType, visited: set<string>)
    requires Resolves(rule, aliases, shadowed, t, visited)
    ensures Reaches(rule, aliases, shadowed, t)
    decreases aliases.Keys - visited, t
  {
    if t == Target(rule) {
      assert IsPath(rule, aliases, shadowed, [t]) && [t][0] == t;
    } else if t.Parenthesized? {
      ResolvesIsSound(rule, aliases, shadowed, t.inner, visited);
      Prepend(rule, aliases, shadowed, t, t.inner);
    } else if t.UnionType? {
      var i :| 0 <= i < |t.types| && Resolves(rule, aliases, shadowed, t.types[i], visited);
      ResolvesIsSound(rule, aliases, shadowed, t.types[i], visited);
      Prepend(rule, aliases, shadowed, t, t.types[i]);
    } else if IsPromise(rule, t) {
      ResolvesIsSound(rule, aliases, shadowed, t.arguments[0], visited);
      Prepend(rule, aliases, shadowed, t, t.arguments[0]);
    } else {
      var name := AliasName(t).value;
      assert name in aliases.Keys - visited;
      ResolvesIsSound(rule, aliases, shadowed, aliases[name].body, visited + {name});
      Prepend(rule, aliases, shadowed, t, aliases[name].body);
    }
  }

  /** The simple-path argument: a path out of an alias can be cut so that the alias is not expanded again. */
  lemma {:induction false} CutRepeats(rule: Rule, aliases: map<string, AliasDeclaration>, shadowed: set<string>,
                                      path: seq<TsType>, name: string) returns (simple: seq<TsType>)
    requires IsPath(rule, aliases, shadowed, path)
    requires name in aliases && path[0] == aliases[name].body
    ensures IsPath(rule, aliases, shadowed, simple) && simple[0] == path[0] && |simple| <= |path|
    ensures Avoids(rule, aliases, shadowed, simple, {name})
    ensures forall u :: u in simple ==> u in path
    decreases |path|
  {
    if j :| 0 <= j < |path| && Expanded(rule, aliases, shadowed, path[j]) == Some(name) {
      assert j < |path| - 1;
      var rest := path[j + 1..];
      assert Leads(rule, aliases, shadowed, path[j], path[j + 1]);
      forall i | 0 <= i < |rest| - 1
        ensures Leads(rule, aliases, shadowed, rest[i], rest[i + 1])
      {
        assert rest[i] == path[j + 1 + i] && rest[i + 1] == path[j + 1 + i + 1];
      }
      simple := CutRepeats(rule, aliases, shadowed, rest, name);
    } else {
      simple := path;
    }
  }

  /** Cutting at visited aliases loses nothing: a path that avoids them is found. */
  lemma {:induction false} ResolvesIsComplete(rule: Rule, aliases: map<string, AliasDeclaration>, shadowed: set<string>,
                                              path: seq<TsType>, visited: set<string>)
    requires IsPath(rule, aliases, shadowed, path)
    requires Avoids(rule, aliases, shadowed, path, visited)
    ensures Resolves(rule, aliases, shadowed, path[0], visited)
    decreases |path|
  {
    var t := path[0];
    if t != Target(rule) {
      var rest := path[1..];
      assert Leads(rule, aliases, shadowed, path[0], path[1]);
      forall i | 0 <= i < |rest| - 1
        ensures Leads(rule, aliases, shadowed, rest[i], rest[i + 1])
      {
        assert rest[i] == path[i + 1] && rest[i + 1] == path[i + 1 + 1];
      }
      assert forall u :: u in rest ==> u in path;
      var name := Expanded(rule, aliases, shadowed, t);
      if name.Some? {
        var simple := CutRepeats(rule, aliases, shadowed, rest, name.value);
        forall i | 0 <= i < |simple|
          ensures var n := Expanded(rule, aliases, shadowed, simple[i]); n.None? || n.value !in visited + {name.value}
        {
          assert simple[i] in simple;
          assert simple[i] in path;
        }
        ResolvesIsComplete(rule, aliases, shadowed, simple, visited + {name.value});
      } else {
        ResolvesIsComplete(rule, aliases, shadowed, rest, visited);
      }
    }
  }

  /** Both rules decide reachability of their keyword exactly, on cyclic alias graphs too. */
  lemma ResolvesIsReachability(rule: Rule, aliases: map<string, AliasDeclaration>, shadowed: set<string>, t: TsType)
    ensures Resolves(rule, aliases, shadowed, t, {}) <==> Reaches(rule, aliases, shadowed, t)
  {
    if Resolves(rule, aliases, shadowed, t, {}) {
      ResolvesIsSound(rule, aliases, shadowed, t, {});
    }
    if Reaches(rule, aliases, shadowed, t) {
      var path :| IsPath(rule, aliases, shadowed, path) && path[0] == t;
      ResolvesIsComplete(rule, aliases, shadowed, path, {});
    }
  }

  // ----- The search on each form of type -----

  /** Each rule accepts its own keyword and not the other one, looks into parentheses and unions, and into the first
      argument of a promise if it is the return rule. */
  lemma ShapesTold(rule: Rule, aliases: map<string, AliasDeclaration>, shadowed: set<string>, visited: set<string>,
                   inner: TsType, types: seq<TsType>, arguments: seq<TsType>)
    ensures Resolves(rule, aliases, shadowed, ObjectKeyword, visited) <==> rule == NoObjectParameters
    ensures Resolves(rule, aliases, shadowed, UnknownKeyword, visited) <==> rule == NoUnknownReturns
    ensures !Resolves(rule, aliases, shadowed, AnyKeyword, visited)
    ensures !Resolves(rule, aliases, shadowed, IntersectionType(types), visited)
    ensures Resolves(rule, aliases, shadowed, Parenthesized(inner), visited) <==>
            Resolves(rule, aliases, shadowed, inner, visited)
    ensures Resolves(rule, aliases, shadowed, UnionType(types), visited) <==>
            exists i :: 0 <= i < |types| && Resolves(rule, aliases, shadowed, types[i], visited)
    ensures forall name :: name == "Promise" || name == "PromiseLike" ==>
              (Resolves(NoUnknownReturns, aliases, shadowed, TypeReference(Some(name), arguments), visited) <==>
               |arguments| > 0 && Resolves(NoUnknownReturns, aliases, shadowed, arguments[0], visited))
  {
  }

  /** Any other named type is followed only without arguments, to an alias that is recorded, not generic, not
      shadowed and not visited before. */
  lemma ReferenceTold(rule: Rule, aliases: map<string, AliasDeclaration>, shadowed: set<string>, visited: set<string>,
                      name: string, arguments: seq<TsType>)
    requires rule == NoObjectParameters || (name != "Promise" && name != "PromiseLike")
    ensures Resolves(rule, aliases, shadowed, TypeReference(Some(name), arguments), visited) <==>
      arguments == [] && name in aliases && !aliases[name].generic && name !in shadowed && name !in visited &&
      Resolves(rule, aliases, shadowed, aliases[name].body, visited + {name})
    ensures !Resolves(rule, aliases, shadowed, TypeReference(None, arguments), visited)
  {
  }
}
