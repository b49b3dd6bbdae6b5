/** The dictionary-value classifier: is a type `unknown`, `any`, `object`, an empty object or a
    combination of those, through aliases that may refer to each other in cycles? Aliases here have
    no type parameters, so the substitution map of the classifier stays empty. */
module DictionaryTypes {
  import opened Prelude
  import opened TsTypes

  datatype Unsafe = AnyValue | EmptyObject | ObjectValue | UnionValue | UnknownValue

  datatype Interface = Interface(extended: bool, members: seq<Member>)

  datatype Environment = Environment(
    aliases: map<string, TsType>,
    interfaces: map<string, seq<Interface>>,
    shadowedBuiltIns: set<string>)

  const BUILT_INS: set<string> :=
    {"Record", "Readonly", "Partial", "Required", "Pick", "Omit", "PropertyKey", "NonNullable"}

  const TRANSPARENT_WRAPPERS: set<string> := {"Readonly", "Partial", "Required", "NonNullable"}

  predicate IsTransparentWrapper(name: string, env: Environment) {
    name in TRANSPARENT_WRAPPERS && name in BUILT_INS && name !in env.shadowedBuiltIns
  }

  /** Strips parentheses and `readonly`. */
  function Unwrapped(t: TsType): (u: TsType)
    ensures u == t || u < t
    ensures !u.Parenthesized? && !(u.TypeOperator? && u.operator == "readonly")
  {
    match t
    case Parenthesized(inner) => Unwrapped(inner)
    case TypeOperator(op, operand) => if op == "readonly" then Unwrapped(operand) else t
    case _ => t
  }

  method UnwrapTransparentType(t: TsType) returns (current: TsType)
    ensures current == Unwrapped(t)
  {
    current := t;
    while current.Parenthesized? || (current.TypeOperator? && current.operator == "readonly")
      invariant Unwrapped(current) == Unwrapped(t)
      decreases current
    {
      current := if current.Parenthesized? then current.inner else current.operand;
    }
  }

  predicate EffectivelyEmptyMember(m: Member) {
    m.PropertySignature? && m.optional && m.annotation.Some? && Unwrapped(m.annotation.value) == NeverKeyword
  }

  predicate EffectivelyEmpty(members: seq<Member>) {
    forall m :: m in members ==> EffectivelyEmptyMember(m)
  }

  predicate EffectivelyEmptyInterface(declarations: seq<Interface>) {
    |declarations| == 1 && !declarations[0].extended && EffectivelyEmpty(declarations[0].members)
  }

  // ----- The environment of a program -----

  /** A top-level statement, with any `export` around it already removed. */
  datatype Statement =
    | ImportStatement(locals: seq<string>)
    | AliasStatement(name: string, body: TsType)
    | InterfaceStatement(name: string, declaration: Interface)
    // An enum, or a named class or function.
    | NamedStatement(name: string)
    | OtherStatement

  predicate Binds(statement: Statement, name: string) {
    match statement
    case ImportStatement(locals) => name in locals
    case AliasStatement(bound, _) => name == bound
    case InterfaceStatement(bound, _) => name == bound
    case NamedStatement(bound) => name == bound
    case OtherStatement => false
  }

  /** The first declaration of an alias, which is the one that counts. */
  function FirstAlias(program: seq<Statement>, name: string): Option<TsType> {
    if program == [] then None
    else
      var head := program[0];
      if head.AliasStatement? && head.name == name then Some(head.body) else FirstAlias(program[1..], name)
  }

  /** The declarations of one interface name, in program order. */
  function InterfacesOf(program: seq<Statement>, name: string): seq<Interface> {
    if program == [] then []
    else
      var head := program[0];
      (if head.InterfaceStatement? && head.name == name then [head.declaration] else [])
      + InterfacesOf(program[1..], name)
  }

  ghost predicate AliasesOf(aliases: map<string, TsType>, program: seq<Statement>) {
    forall name :: FirstAlias(program, name) == if name in aliases then Some(aliases[name]) else None
  }

  ghost predicate GroupsInterfaces(interfaces: map<string, seq<Interface>>, program: seq<Statement>) {
    forall name :: InterfacesOf(program, name) == if name in interfaces then interfaces[name] else []
  }

  predicate BoundBy(program: seq<Statement>, name: string) {
    exists at :: 0 <= at < |program| && Binds(program[at], name)
  }

  /** A built-in is shadowed exactly when some statement binds its name. */
  ghost predicate ShadowsBuiltIns(shadowed: set<string>, program: seq<Statement>) {
    forall name :: name in BUILT_INS ==>
      (name in shadowed <==> BoundBy(program, name))
  }

  lemma {:induction false} FirstAliasAppend(program: seq<Statement>, last: Statement, name: string)
    ensures FirstAlias(program + [last], name) ==
            if FirstAlias(program, name).Some? then FirstAlias(program, name) else FirstAlias([last], name)
  {
    if program != [] {
      assert (program + [last])[1..] == program[1..] + [last];
      FirstAliasAppend(program[1..], last, name);
    }
  }

  lemma {:induction false} InterfacesAppend(program: seq<Statement>, last: Statement, name: string)
    ensures InterfacesOf(program + [last], name) == InterfacesOf(program, name) + InterfacesOf([last], name)
  {
    if program != [] {
      assert (program + [last])[1..] == program[1..] + [last];
      InterfacesAppend(program[1..], last, name);
    }
  }

  /** What one more statement changes for one name. */
  ghost predicate Extends(program: seq<Statement>, last: Statement, name: string) {
    var longer := program + [last];
    && FirstAlias(longer, name) == (
         if FirstAlias(program, name).Some? then FirstAlias(program, name)
         else if last.AliasStatement? && last.name == name then Some(last.body)
         else None)
    && InterfacesOf(longer, name) == InterfacesOf(program, name) +
         (if last.InterfaceStatement? && last.name == name then [last.declaration] else [])
    && (BoundBy(longer, name) <==> BoundBy(program, name) || Binds(last, name))
  }

  lemma Append(program: seq<Statement>, last: Statement, name: string)
    ensures Extends(program, last, name)
  {
    FirstAliasAppend(program, last, name);
    InterfacesAppend(program, last, name);
    var longer := program + [last];
    if Binds(last, name) { assert Binds(longer[|program|], name); }
    if at :| 0 <= at < |program| && Binds(program[at], name) { assert Binds(longer[at], name); }
  }

  method CreateTypeEnvironment(program: seq<Statement>) returns (env: Environment)
    ensures AliasesOf(env.aliases, program)
    ensures GroupsInterfaces(env.interfaces, program)
    ensures ShadowsBuiltIns(env.shadowedBuiltIns, program)
  {
    var aliases: map<string, TsType> := map[];
    var interfaces: map<string, seq<Interface>> := map[];
    var shadowed: set<string> := {};
    for k := 0 to |program|
      invariant AliasesOf(aliases, program[..k])
      invariant GroupsInterfaces(interfaces, program[..k])
      invariant ShadowsBuiltIns(shadowed, program[..k])
    {
      var statement := program[k];
      assert program[..k] + [statement] == program[..k + 1];
      match statement {
        case ImportStatement(locals) =>
          shadowed := shadowed + (set name | name in locals && name in BUILT_INS);
        case AliasStatement(name, body) =>
          if name !in aliases {
            aliases := aliases[name := body];
          } else {
            shadowed := shadowed + {name};
          }
          if name in BUILT_INS { shadowed := shadowed + {name}; }
        case InterfaceStatement(name, declaration) =>
          interfaces := interfaces[name := (if name in interfaces then interfaces[name] else []) + [declaration]];
          if name in BUILT_INS { shadowed := shadowed + {name}; }
        case NamedStatement(name) =>
          if name in BUILT_INS { shadowed := shadowed + {name}; }
        case OtherStatement =>
      }
      forall name
        ensures FirstAlias(program[..k + 1], name) == if name in aliases then Some(aliases[name]) else None
        ensures InterfacesOf(program[..k + 1], name) == if name in interfaces then interfaces[name] else []
        ensures name in BUILT_INS ==> (name in shadowed <==> BoundBy(program[..k + 1], name))
      {
        Append(program[..k], statement, name);
      }
    }
    assert program[..|program|] == program;
    env := Environment(aliases, interfaces, shadowed);
  }

  /** What an intersection makes of the verdicts on its members. */
  function Intersect(verdicts: seq<Option<Unsafe>>): Option<Unsafe> {
    if Some(AnyValue) in verdicts then Some(AnyValue)
    else if |verdicts| > 0 && None !in verdicts then verdicts[0]
    else None
  }

  /** The classifier, cutting at aliases that are already being resolved. */
  function UnsafeDirectValue(t: TsType, env: Environment, resolving: set<string>): Option<Unsafe>
    decreases env.aliases.Keys - resolving, t
  {
    var u := Unwrapped(t);
    if u.UnknownKeyword? then Some(UnknownValue)
    else if u.AnyKeyword? then Some(AnyValue)
    else if u.ObjectKeyword? then Some(ObjectValue)
    else if u.TypeLiteral? && EffectivelyEmpty(u.members) then Some(EmptyObject)
    else if u.UnionType? then
      if exists i :: 0 <= i < |u.types| && UnsafeDirectValue(u.types[i], env, resolving).Some?
      then Some(UnionValue) else None
    else if u.IntersectionType? then
      Intersect(seq(|u.types|, i requires 0 <= i < |u.types| => UnsafeDirectValue(u.types[i], env, resolving)))
    else if !u.TypeReference? || u.identifier.None? then None
    else
      var name := u.identifier.value;
      if IsTransparentWrapper(name, env) then
        if |u.arguments| == 0 then None else UnsafeDirectValue(u.arguments[0], env, resolving)
      else if name in env.interfaces then
        if EffectivelyEmptyInterface(env.interfaces[name]) then Some(EmptyObject) else None
      else if name !in env.aliases || name in resolving then None
      else
        assert name in env.aliases.Keys - resolving;
        UnsafeDirectValue(env.aliases[name], env, resolving + {name})
  }

  // ----- Reference meaning: the least assignment of verdicts to aliases -----

  /** A partial assignment of verdicts to alias names; absent means safe. Bigger means more verdicts. */
  type Assignment = map<string, Unsafe>

  ghost predicate Below(a: Assignment, b: Assignment) {
    forall name :: name in a ==> name in b && b[name] == a[name]
  }

  /** The meaning of a type when every alias means what the assignment says. */
  function Meaning(t: TsType, env: Environment, given: Assignment): Option<Unsafe> {
    match t
    case UnknownKeyword => Some(UnknownValue)
    case AnyKeyword => Some(AnyValue)
    case ObjectKeyword => Some(ObjectValue)
    case NeverKeyword => None
    case OtherType(_) => None
    case Parenthesized(inner) => Meaning(inner, env, given)
    case TypeOperator(op, operand) => if op == "readonly" then Meaning(operand, env, given) else None
    case TypeLiteral(members) => if EffectivelyEmpty(members) then Some(EmptyObject) else None
    case UnionType(types) =>
      if exists i :: 0 <= i < |types| && Meaning(types[i], env, given).Some? then Some(UnionValue) else None
    case IntersectionType(types) =>
      Intersect(seq(|types|, i requires 0 <= i < |types| => Meaning(types[i], env, given)))
    case TypeReference(None, _) => None
    case TypeReference(Some(name), arguments) =>
      if IsTransparentWrapper(name, env) then
        if |arguments| == 0 then None else Meaning(arguments[0], env, given)
      else if name in env.interfaces then
        if EffectivelyEmptyInterface(env.interfaces[name]) then Some(EmptyObject) else None
      else if name in env.aliases && name in given then Some(given[name])
      else None
  }

  /** Every alias whose body has a verdict is given that verdict. */
  ghost predicate IsClosed(env: Environment, given: Assignment) {
    forall name :: name in env.aliases ==>
      var verdict := Meaning(env.aliases[name], env, given);
      verdict.Some? ==> name in given && given[name] == verdict.value
  }

  /** An assignment is a solution when each alias is given exactly the meaning of its body. */
  ghost predicate IsSolution(env: Environment, given: Assignment) {
    && given.Keys <= env.aliases.Keys
    && forall name :: name in env.aliases ==>
      Meaning(env.aliases[name], env, given) == if name in given then Some(given[name]) else None
  }

  lemma {:induction false} UnwrappedMeaning(t: TsType, env: Environment, given: Assignment)
    ensures Meaning(Unwrapped(t), env, given) == Meaning(t, env, given)
  {
    match t
    case Parenthesized(inner) => UnwrappedMeaning(inner, env, given);
    case TypeOperator(op, operand) => if op == "readonly" { UnwrappedMeaning(operand, env, given); }
    case _ =>
  }

  /** Any verdict of the classifier is a consequence of every closed assignment. */
  lemma {:induction false} VerdictIsSound(t: TsType, env: Environment, resolving: set<string>, given: Assignment)
    requires IsClosed(env, given)
    requires UnsafeDirectValue(t, env, resolving).Some?
    ensures Meaning(t, env, given) == UnsafeDirectValue(t, env, resolving)
    decreases env.aliases.Keys - resolving, t
  {
    UnwrappedMeaning(t, env, given);
    var u := Unwrapped(t);
    if u.UnionType? {
      var i :| 0 <= i < |u.types| && UnsafeDirectValue(u.types[i], env, resolving).Some?;
      VerdictIsSound(u.types[i], env, resolving, given);
    } else if u.IntersectionType? {
      var verdicts := seq(|u.types|, i requires 0 <= i < |u.types| => UnsafeDirectValue(u.types[i], env, resolving));
      var meanings := seq(|u.types|, i requires 0 <= i < |u.types| => Meaning(u.types[i], env, given));
      forall i | 0 <= i < |u.types| && verdicts[i].Some?
        ensures meanings[i] == verdicts[i]
      {
        VerdictIsSound(u.types[i], env, resolving, given);
      }
    } else if u.TypeReference? {
      var name := u.identifier.value;
      if IsTransparentWrapper(name, env) {
        VerdictIsSound(u.arguments[0], env, resolving, given);
      } else if name !in env.interfaces {
        assert name in env.aliases.Keys - resolving;
        VerdictIsSound(env.aliases[name], env, resolving + {name}, given);
      }
    }
  }

  lemma {:induction false} MeaningMonotone(t: TsType, env: Environment, a: Assignment, b: Assignment)
    requires Below(a, b)
    ensures Meaning(t, env, a).Some? ==> Meaning(t, env, b) == Meaning(t, env, a)
  {
    match t
    case Parenthesized(inner) => MeaningMonotone(inner, env, a, b);
    case TypeOperator(op, operand) => MeaningMonotone(operand, env, a, b);
    case UnionType(types) =>
      forall i | 0 <= i < |types|
        ensures Meaning(types[i], env, a).Some? ==> Meaning(types[i], env, b) == Meaning(types[i], env, a)
      {
        MeaningMonotone(types[i], env, a, b);
      }
    case IntersectionType(types) =>
      var inA := seq(|types|, i requires 0 <= i < |types| => Meaning(types[i], env, a));
      var inB := seq(|types|, i requires 0 <= i < |types| => Meaning(types[i], env, b));
      forall i | 0 <= i < |types|
        ensures inA[i].Some? ==> inB[i] == inA[i]
      {
        MeaningMonotone(types[i], env, a, b);
      }
    case TypeReference(_, arguments) =>
      if |arguments| > 0 { MeaningMonotone(arguments[0], env, a, b); }
    case _ =>
  }

  // ----- The least solution, built in rounds -----

  /** What is known about the aliases after n rounds of re-evaluating every body. */
  ghost function Round(env: Environment, n: nat): Assignment {
    if n == 0 then map[]
    else
      var before := Round(env, n - 1);
      map name | name in env.aliases && Meaning(env.aliases[name], env, before).Some? ::
        Meaning(env.aliases[name], env, before).value
  }

  lemma {:induction false} RoundsGrow(env: Environment, n: nat)
    ensures Below(Round(env, n), Round(env, n + 1))
  {
    if n > 0 {
      RoundsGrow(env, n - 1);
      forall name | name in Round(env, n)
        ensures name in Round(env, n + 1) && Round(env, n + 1)[name] == Round(env, n)[name]
      {
        MeaningMonotone(env.aliases[name], env, Round(env, n - 1), Round(env, n));
      }
    }
  }

  /** The first round that gives an alias its verdict, which later rounds keep. */
  lemma {:induction false} FirstRound(env: Environment, name: string, n: nat) returns (m: nat)
    requires name in Round(env, n)
    ensures m < n && name !in Round(env, m) && Below(Round(env, m), Round(env, n))
    ensures Meaning(env.aliases[name], env, Round(env, m)) == Some(Round(env, n)[name])
  {
    RoundsGrow(env, n - 1);
    if name in Round(env, n - 1) {
      m := FirstRound(env, name, n - 1);
    } else {
      m := n - 1;
    }
  }

  /** Cutting at an alias that is being resolved never loses a verdict: what a round establishes, the
      classifier finds, as long as no alias it refuses to expand is needed. */
  lemma {:induction false} VerdictIsComplete(t: TsType, env: Environment, resolving: set<string>, n: nat)
    requires resolving !! Round(env, n).Keys
    requires Meaning(t, env, Round(env, n)).Some?
    ensures UnsafeDirectValue(t, env, resolving) == Meaning(t, env, Round(env, n))
    decreases n, t
  {
    var given := Round(env, n);
    UnwrappedMeaning(t, env, given);
    var u := Unwrapped(t);
    if u.UnionType? {
      var i :| 0 <= i < |u.types| && Meaning(u.types[i], env, given).Some?;
      VerdictIsComplete(u.types[i], env, resolving, n);
    } else if u.IntersectionType? {
      var verdicts := seq(|u.types|, i requires 0 <= i < |u.types| => UnsafeDirectValue(u.types[i], env, resolving));
      var meanings := seq(|u.types|, i requires 0 <= i < |u.types| => Meaning(u.types[i], env, given));
      forall i | 0 <= i < |u.types| && meanings[i].Some?
        ensures meanings[i] == verdicts[i]
      {
        VerdictIsComplete(u.types[i], env, resolving, n);
      }
    } else if u.TypeReference? {
      var name := u.identifier.value;
      if IsTransparentWrapper(name, env) {
        VerdictIsComplete(u.arguments[0], env, resolving, n);
      } else if name !in env.interfaces {
        assert name in given.Keys && name !in resolving;
        var m := FirstRound(env, name, n);
        VerdictIsComplete(env.aliases[name], env, resolving + {name}, m);
      }
    }
  }

  lemma {:induction false} RoundsSettle(env: Environment, n: nat) returns (m: nat)
    ensures Round(env, m + 1) == Round(env, m)
    decreases env.aliases.Keys - Round(env, n).Keys
  {
    var now, next := Round(env, n), Round(env, n + 1);
    RoundsGrow(env, n);
    if name :| name in next && name !in now {
      assert name in env.aliases.Keys - now.Keys;
      m := RoundsSettle(env, n + 1);
    } else {
      assert next.Keys == now.Keys;
      m := n;
    }
  }

  /** What the classifier says about each alias on its own. */
  function Verdicts(env: Environment): Assignment {
    map name | name in env.aliases && UnsafeDirectValue(env.aliases[name], env, {name}).Some? ::
      UnsafeDirectValue(env.aliases[name], env, {name}).value
  }

  lemma VerdictsFollow(env: Environment, given: Assignment)
    requires IsClosed(env, given)
    ensures Below(Verdicts(env), given)
  {
    forall name | name in Verdicts(env)
      ensures name in given && given[name] == Verdicts(env)[name]
    {
      VerdictIsSound(env.aliases[name], env, {name}, given);
    }
  }

  /** The classifier computes the least solution: its verdicts solve the alias equations, every other
      solution contains them, and a type's verdict, kind included, is its meaning under them. */
  lemma VerdictsAreLeastSolution(env: Environment)
    ensures IsSolution(env, Verdicts(env))
    ensures forall other :: IsClosed(env, other) ==> Below(Verdicts(env), other)
    ensures forall t :: UnsafeDirectValue(t, env, {}) == Meaning(t, env, Verdicts(env))
  {
    var m := RoundsSettle(env, 0);
    var limit := Round(env, m);
    forall name | name in env.aliases
      ensures Meaning(env.aliases[name], env, limit) == if name in limit then Some(limit[name]) else None
    {
      assert name in Round(env, m + 1) <==> Meaning(env.aliases[name], env, limit).Some?;
    }
    VerdictsFollow(env, limit);
    forall name | name in limit
      ensures name in Verdicts(env) && Verdicts(env)[name] == limit[name]
    {
      var first := FirstRound(env, name, m);
      VerdictIsComplete(env.aliases[name], env, {name}, first);
    }
    assert Verdicts(env) == limit;
    forall other | IsClosed(env, other)
      ensures Below(Verdicts(env), other)
    {
      VerdictsFollow(env, other);
    }
    forall t
      ensures UnsafeDirectValue(t, env, {}) == Meaning(t, env, limit)
    {
      if UnsafeDirectValue(t, env, {}).Some? { VerdictIsSound(t, env, {}, limit); }
      if Meaning(t, env, limit).Some? { VerdictIsComplete(t, env, {}, m); }
    }
  }

  // ----- The verdict on each form of type -----

  /** `never`, inside any parentheses and `readonly`s. */
  predicate IsNever(t: TsType) {
    match t
    case NeverKeyword => true
    case Parenthesized(inner) => IsNever(inner)
    case TypeOperator(op, operand) => op == "readonly" && IsNever(operand)
    case _ => false
  }

  lemma {:induction false} IsNeverIff(t: TsType)
    ensures Unwrapped(t) == NeverKeyword <==> IsNever(t)
  {
    match t
    case Parenthesized(inner) => IsNeverIff(inner);
    case TypeOperator(op, operand) => IsNeverIff(operand);
    case _ =>
  }

  /** All members are optional properties of type `never`. */
  predicate HoldsNothing(members: seq<Member>) {
    forall m :: m in members ==> m.PropertySignature? && m.optional && m.annotation.Some? && IsNever(m.annotation.value)
  }

  lemma HoldsNothingIff(members: seq<Member>)
    ensures EffectivelyEmpty(members) <==> HoldsNothing(members)
  {
    forall m | m in members && m.PropertySignature? && m.annotation.Some?
      ensures Unwrapped(m.annotation.value) == NeverKeyword <==> IsNever(m.annotation.value)
    {
      IsNeverIff(m.annotation.value);
    }
  }

  /** Keywords, and object literals that hold nothing. */
  lemma PlainVerdicts(env: Environment, resolving: set<string>, members: seq<Member>)
    ensures UnsafeDirectValue(UnknownKeyword, env, resolving) == Some(UnknownValue)
    ensures UnsafeDirectValue(AnyKeyword, env, resolving) == Some(AnyValue)
    ensures UnsafeDirectValue(ObjectKeyword, env, resolving) == Some(ObjectValue)
    ensures UnsafeDirectValue(NeverKeyword, env, resolving) == None
    ensures UnsafeDirectValue(TypeLiteral(members), env, resolving) ==
            if HoldsNothing(members) then Some(EmptyObject) else None
  {
    HoldsNothingIff(members);
  }

  /** Some member of a type list has this verdict. */
  ghost predicate SomeVerdict(types: seq<TsType>, env: Environment, resolving: set<string>, verdict: Unsafe) {
    exists i :: 0 <= i < |types| && UnsafeDirectValue(types[i], env, resolving) == Some(verdict)
  }

  ghost predicate AllUnsafe(types: seq<TsType>, env: Environment, resolving: set<string>) {
    forall i :: 0 <= i < |types| ==> UnsafeDirectValue(types[i], env, resolving).Some?
  }

  /** A union is unsafe when some member is. An intersection is `any` exactly when some member is; otherwise it has a
      verdict exactly when it has members and each of them has one, and then that of the first. */
  lemma ListVerdicts(types: seq<TsType>, env: Environment, resolving: set<string>)
    ensures
      UnsafeDirectValue(UnionType(types), env, resolving) ==
        if exists i :: 0 <= i < |types| && UnsafeDirectValue(types[i], env, resolving).Some? then Some(UnionValue)
        else None
    ensures
      var verdict := UnsafeDirectValue(IntersectionType(types), env, resolving);
      && (verdict == Some(AnyValue) <==> SomeVerdict(types, env, resolving, AnyValue))
      && (verdict != Some(AnyValue) ==>
            && (verdict.Some? <==> |types| > 0 && AllUnsafe(types, env, resolving))
            && (verdict.Some? ==> verdict == UnsafeDirectValue(types[0], env, resolving)))
  {
    var t := IntersectionType(types);
    assert Unwrapped(t) == t;
    var verdicts := seq(|types|, i requires 0 <= i < |types| => UnsafeDirectValue(types[i], env, resolving));
    assert UnsafeDirectValue(t, env, resolving) == Intersect(verdicts);
    if SomeVerdict(types, env, resolving, AnyValue) {
      var i :| 0 <= i < |types| && UnsafeDirectValue(types[i], env, resolving) == Some(AnyValue);
      assert verdicts[i] in verdicts;
    }
    if Some(AnyValue) in verdicts {
      var i :| 0 <= i < |verdicts| && verdicts[i] == Some(AnyValue);
      assert UnsafeDirectValue(types[i], env, resolving) == Some(AnyValue);
    }
    if None !in verdicts {
      forall i | 0 <= i < |types|
        ensures UnsafeDirectValue(types[i], env, resolving).Some?
      {
        assert verdicts[i] in verdicts;
      }
    }
  }

  /** The wrappers that are looked through, unless the program declares the name itself. */
  predicate LooksThrough(name: string, env: Environment) {
    (name == "Readonly" || name == "Partial" || name == "Required" || name == "NonNullable") &&
    name !in env.shadowedBuiltIns
  }

  /** A named type is its first argument if the name is looked through; else empty if it is a single interface that
      extends nothing and holds nothing; else what its alias is, unless that is being resolved already. */
  lemma ReferenceVerdict(name: string, arguments: seq<TsType>, env: Environment, resolving: set<string>)
    ensures
      UnsafeDirectValue(TypeReference(Some(name), arguments), env, resolving) ==
        if LooksThrough(name, env) then
          if arguments == [] then None else UnsafeDirectValue(arguments[0], env, resolving)
        else if name in env.interfaces then
          var declared := env.interfaces[name];
          if |declared| == 1 && !declared[0].extended && HoldsNothing(declared[0].members) then Some(EmptyObject)
          else None
        else if name in env.aliases && name !in resolving then
          UnsafeDirectValue(env.aliases[name], env, resolving + {name})
        else None
    ensures UnsafeDirectValue(TypeReference(None, arguments), env, resolving) == None
  {
    if name in env.interfaces && |env.interfaces[name]| == 1 { HoldsNothingIff(env.interfaces[name][0].members); }
  }

  // ----- What the environment records -----

  ghost predicate IsFirstAlias(program: seq<Statement>, name: string, at: int) {
    && 0 <= at < |program| && program[at].AliasStatement? && program[at].name == name
    && forall j :: 0 <= j < at ==> !(program[j].AliasStatement? && program[j].name == name)
  }

  /** The alias that counts is the first of its name. */
  lemma {:induction false} FirstAliasIff(program: seq<Statement>, name: string, body: TsType)
    ensures FirstAlias(program, name) == Some(body) <==>
      exists at :: 0 <= at < |program| && IsFirstAlias(program, name, at) && program[at].body == body
  {
    if program != [] {
      var head, rest := program[0], program[1..];
      FirstAliasIff(rest, name, body);
      if head.AliasStatement? && head.name == name {
        if head.body == body { assert IsFirstAlias(program, name, 0); }
        forall at | 0 <= at < |program| && IsFirstAlias(program, name, at)
          ensures at == 0
        {
        }
      } else {
        forall at | 0 <= at < |rest|
          ensures IsFirstAlias(rest, name, at) <==> IsFirstAlias(program, name, at + 1)
        {
          assert program[at + 1] == rest[at];
          assert forall j :: 0 <= j < at ==> rest[j] == program[j + 1];
        }
        if at :| 0 <= at < |program| && IsFirstAlias(program, name, at) && program[at].body == body {
          assert at > 0 && IsFirstAlias(rest, name, at - 1) && rest[at - 1].body == body;
        }
        if at :| 0 <= at < |rest| && IsFirstAlias(rest, name, at) && rest[at].body == body {
          assert IsFirstAlias(program, name, at + 1) && program[at + 1].body == body;
        }
      }
    }
  }

  /** Interface declarations are collected in order, one for each statement that declares the name. */
  lemma {:induction false} InterfacesTold(a: seq<Statement>, b: seq<Statement>, last: Statement, name: string)
    ensures InterfacesOf(a + b, name) == InterfacesOf(a, name) + InterfacesOf(b, name)
    ensures InterfacesOf([last], name) ==
            if last.InterfaceStatement? && last.name == name then [last.declaration] else []
    decreases |a|
  {
    assert [last][1..] == [];
    if a == [] {
      assert a + b == b;
    } else {
      assert (a + b)[1..] == a[1..] + b;
      InterfacesTold(a[1..], b, last, name);
    }
  }

  /** A name is bound by an import of it, or by a declaration of an alias, an interface, an enum, a class or a
      function of that name. */
  lemma BindsIff(s: Statement, name: string)
    ensures Binds(s, name) <==>
      (s.ImportStatement? && name in s.locals) ||
      ((s.AliasStatement? || s.InterfaceStatement? || s.NamedStatement?) && s.name == name)
    ensures name in BUILT_INS <==>
      name == "Record" || name == "Readonly" || name == "Partial" || name == "Required" || name == "Pick" ||
      name == "Omit" || name == "PropertyKey" || name == "NonNullable"
  {
  }
}
