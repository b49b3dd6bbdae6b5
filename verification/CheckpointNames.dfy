/** Checkpoint names: the first use of a step name is the name itself, the n-th is `name#n`. */
module CheckpointNames {
  import opened Decimal

  function CheckpointName(name: string, occurrence: nat): string {
    if occurrence <= 1 then name else name + "#" + Numeral(occurrence)
  }

  /** How often a step name has been used. */
  function Uses(calls: seq<string>, name: string): nat {
    if calls == [] then 0
    else Uses(calls[..|calls| - 1], name) + if calls[|calls| - 1] == name then 1 else 0
  }

  /** The checkpoint name that the next use of a step name gets. */
  function NextName(calls: seq<string>, name: string): string {
    CheckpointName(name, Uses(calls, name) + 1)
  }

  /** The checkpoint name of each call of a run. */
  function NameAt(calls: seq<string>, i: nat): string
    requires i < |calls|
  {
    NextName(calls[..i], calls[i])
  }

  ghost predicate AllDistinct(calls: seq<string>) {
    forall i, j :: 0 <= i < j < |calls| ==> NameAt(calls, i) != NameAt(calls, j)
  }

  /** Some used name spells a later use of another used name, such as `a#2` next to two uses of `a`. */
  ghost predicate SpellsLaterUse(calls: seq<string>) {
    exists a, b, n: nat :: a in calls && b in calls && 2 <= n <= Uses(calls, b) && a == CheckpointName(b, n)
  }

  /** The numeral starts after the last `#`. */
  lemma LastHash(name: string, n: nat)
    ensures var s := name + "#" + Numeral(n);
      s[|name|] == '#' && forall i :: |name| < i < |s| ==> s[i] != '#'
  {
    NumeralDigits(n);
    var s := name + "#" + Numeral(n);
    assert forall i :: |name| < i < |s| ==> s[i] == Numeral(n)[i - |name| - 1];
  }

  lemma SuffixUnique(a: string, b: string, m: nat, n: nat)
    requires a + "#" + Numeral(m) == b + "#" + Numeral(n)
    ensures a == b && m == n
  {
    LastHash(a, m);
    LastHash(b, n);
    var s := a + "#" + Numeral(m);
    assert |a| == |b|;
    assert s[..|a|] == a && s[..|b|] == b;
    assert s[|a| + 1..] == Numeral(m) && s[|b| + 1..] == Numeral(n);
    NumeralInjective(m, n);
  }

  /** Two different (name, occurrence) pairs share a checkpoint name only when one is a first use that
      spells the other. */
  lemma SharedName(a: string, m: nat, b: string, n: nat)
    requires m >= 1 && n >= 1 && CheckpointName(a, m) == CheckpointName(b, n)
    ensures (a == b && m == n) || (a != b && ((m == 1 && n >= 2) || (m >= 2 && n == 1)))
  {
    if m >= 2 && n >= 2 { SuffixUnique(a, b, m, n); }
  }

  lemma {:induction false} UsesGrow(calls: seq<string>, i: nat, j: nat, name: string)
    requires i <= j <= |calls|
    ensures Uses(calls[..i], name) <= Uses(calls[..j], name)
    ensures i < j && calls[i] == name ==> Uses(calls[..i], name) < Uses(calls[..j], name)
    decreases j - i
  {
    if i < j {
      assert calls[..j][..j - 1] == calls[..j - 1];
      UsesGrow(calls, i, j - 1, name);
    }
  }

  lemma {:induction false} NthUse(calls: seq<string>, name: string, n: nat) returns (i: nat)
    requires 1 <= n <= Uses(calls, name)
    ensures i < |calls| && calls[i] == name && NameAt(calls, i) == CheckpointName(name, n)
  {
    var shorter := calls[..|calls| - 1];
    if n <= Uses(shorter, name) {
      i := NthUse(shorter, name, n);
      assert shorter[..i] == calls[..i];
    } else {
      i := |calls| - 1;
    }
  }

  lemma {:induction false} UsedAtLeastOnce(calls: seq<string>, name: string)
    ensures name in calls <==> Uses(calls, name) >= 1
  {
    if calls != [] {
      UsedAtLeastOnce(calls[..|calls| - 1], name);
      assert calls == calls[..|calls| - 1] + [calls[|calls| - 1]];
    }
  }

  lemma EqualNamesSpell(calls: seq<string>, i: nat, j: nat)
    requires i < j < |calls|
    ensures NameAt(calls, i) == NameAt(calls, j) ==> SpellsLaterUse(calls)
  {
    var a, b := calls[i], calls[j];
    var m, n := Uses(calls[..i], a) + 1, Uses(calls[..j], b) + 1;
    UsesGrow(calls, i, j, a);
    UsesGrow(calls, i, |calls|, a);
    UsesGrow(calls, j, |calls|, b);
    assert calls[..|calls|] == calls;
    if CheckpointName(a, m) == CheckpointName(b, n) {
      SharedName(a, m, b, n);
      if a != b && m == 1 {
        assert a in calls && b in calls && 2 <= n <= Uses(calls, b) && a == CheckpointName(b, n);
      } else if a != b {
        assert b in calls && a in calls && 2 <= m <= Uses(calls, a) && b == CheckpointName(a, m);
      }
    }
  }

  /** Checkpoint names of a run are pairwise different exactly when no used name spells a later use
      of another used name. */
  lemma NamesDistinctIff(calls: seq<string>)
    ensures AllDistinct(calls) <==> !SpellsLaterUse(calls)
  {
    if SpellsLaterUse(calls) {
      var a, b, n: nat :| a in calls && b in calls && 2 <= n <= Uses(calls, b) && a == CheckpointName(b, n);
      UsedAtLeastOnce(calls, a);
      var i := NthUse(calls, a, 1);
      var j := NthUse(calls, b, n);
      assert |a| > |b|;
      assert i != j && NameAt(calls, i) == NameAt(calls, j);
      assert !AllDistinct(calls);
    } else {
      forall i, j | 0 <= i < j < |calls|
        ensures NameAt(calls, i) != NameAt(calls, j)
      {
        EqualNamesSpell(calls, i, j);
      }
    }
  }

  /** A name without `#` can never clash: such programs always get distinct checkpoint names. */
  lemma NamesWithoutHashDistinct(calls: seq<string>)
    requires forall name :: name in calls ==> '#' !in name
    ensures AllDistinct(calls)
  {
    forall b, n: nat | 2 <= n
      ensures '#' in CheckpointName(b, n)
    {
      assert CheckpointName(b, n)[|b|] == '#';
    }
    NamesDistinctIff(calls);
  }

  /** Replaying the same calls gives the same names: names depend only on the calls made so far. */
  lemma NamesFollowPrefix(calls: seq<string>, longer: seq<string>, i: nat)
    requires i < |calls| && calls <= longer
    ensures NameAt(calls, i) == NameAt(longer, i)
  {
    assert calls[..i] == longer[..i];
  }

  /** Uses are counted. */
  lemma {:induction false} UsesCount(calls: seq<string>, name: string)
    ensures Uses(calls, name) == multiset(calls)[name]
  {
    if calls != [] {
      var shorter := calls[..|calls| - 1];
      UsesCount(shorter, name);
      assert calls == shorter + [calls[|calls| - 1]];
    }
  }

  /** The first use of a name is the name, the second `name#2`, and any later one the name, a `#` and the decimal
      numeral of the use. */
  lemma LaterUses(name: string, n: nat)
    ensures NextName([], name) == name && NextName([name], name) == name + "#2"
    ensures n >= 2 ==>
      && CheckpointName(name, n) == name + "#" + Numeral(n) && NumeralValue(Numeral(n)) == n
      && forall i :: 0 <= i < |Numeral(n)| ==> '0' <= Numeral(n)[i] <= '9'
  {
    assert [name][..0] == [];
    assert Uses([name], name) == 1 && Numeral(2) == "2";
    NumeralReadsBack(n);
    NumeralDigits(n);
  }
}
