/**
 * The admission rule of `checkLoadQueue`, on values. One scan walks a snapshot
 * of the pending pool in insertion order, starting with `size` files in flight,
 * and admits an entry when it is `Populated`, or `Pending` while fewer than
 * `cap` files are in flight; after each entry it stops if the number in flight
 * is exactly `cap`.
 */
module Admission {
  import opened Files

  /** The admission test of one entry. */
  predicate Eligible(st: FileState, size: nat, cap: nat) {
    st == Populated || (st == Pending && size < cap)
  }

  function Falses(n: nat): (r: seq<bool>)
    ensures |r| == n && forall i :: 0 <= i < n ==> !r[i]
  {
    seq(n, _ => false)
  }

  /** For each entry of the snapshot, whether the scan admits it. */
  function AdmitMask(states: seq<FileState>, size: nat, cap: nat): (r: seq<bool>)
    ensures |r| == |states|
  {
    if states == [] then []
    else
      var take := Eligible(states[0], size, cap);
      var next := if take then size + 1 else size;
      if next == cap then [take] + Falses(|states| - 1)
      else [take] + AdmitMask(states[1..], next, cap)
  }

  /** The number of admitted entries. */
  function Count(m: seq<bool>): nat {
    if m == [] then 0 else (if m[0] then 1 else 0) + Count(m[1..])
  }

  /** The number of `Pending` entries. */
  function CountPending(states: seq<FileState>): nat {
    if states == [] then 0 else (if states[0] == Pending then 1 else 0) + CountPending(states[1..])
  }

  predicate NoPopulated(states: seq<FileState>) {
    forall i :: 0 <= i < |states| ==> states[i] != Populated
  }

  function Min(a: nat, b: nat): nat {
    if a <= b then a else b
  }

  /** The entries the scan leaves in the pending pool, in their order. */
  function Remaining<T>(s: seq<T>, m: seq<bool>): seq<T>
    requires |s| == |m|
  {
    if s == [] then [] else (if m[0] then [] else [s[0]]) + Remaining(s[1..], m[1..])
  }

  /** The entries the scan moves into the in-flight pool. */
  function Chosen<T>(s: seq<T>, m: seq<bool>): set<T>
    requires |s| == |m|
  {
    if s == [] then {} else (if m[0] then {s[0]} else {}) + Chosen(s[1..], m[1..])
  }

  /** The scan only ever drops entries from the pending pool. */
  lemma {:induction false} RemainingSubset<T>(s: seq<T>, m: seq<bool>, y: T)
    requires |s| == |m| && y in Remaining(s, m)
    ensures y in s
  {
    if s != [] && y != s[0] {
      RemainingSubset(s[1..], m[1..], y);
    }
  }

  /** An entry is either left pending or admitted, and nothing else is admitted. */
  lemma {:induction false} RemainingChosenPartition<T>(s: seq<T>, m: seq<bool>)
    requires |s| == |m|
    ensures forall y :: y in Remaining(s, m) || y in Chosen(s, m) <==> y in s
  {
    if s != [] {
      RemainingChosenPartition(s[1..], m[1..]);
      var head: seq<T> := if m[0] then [] else [s[0]];
      assert Remaining(s, m) == head + Remaining(s[1..], m[1..]);
      assert Chosen(s, m) == (if m[0] then {s[0]} else {}) + Chosen(s[1..], m[1..]);
      forall y ensures y in Remaining(s, m) || y in Chosen(s, m) <==> y in s {
        assert y in s <==> y == s[0] || y in s[1..];
        assert y in Remaining(s, m) <==> y in head || y in Remaining(s[1..], m[1..]);
      }
    }
  }

  /** A scan that admits nothing leaves every entry where it was. */
  lemma {:induction false} NoneChosen<T>(s: seq<T>, m: seq<bool>)
    requires |s| == |m| && forall j :: 0 <= j < |m| ==> !m[j]
    ensures Remaining(s, m) == s && Chosen(s, m) == {} && Count(m) == 0
  {
    if s != [] {
      NoneChosen(s[1..], m[1..]);
      assert s == [s[0]] + s[1..];
    }
  }

  lemma {:induction false} CountAppend(a: seq<bool>, b: seq<bool>)
    ensures Count(a + b) == Count(a) + Count(b)
  {
    if a != [] {
      assert (a + b)[1..] == a[1..] + b;
      CountAppend(a[1..], b);
    } else {
      assert a + b == b;
    }
  }

  lemma {:induction false} CountFalses(n: nat)
    ensures Count(Falses(n)) == 0
  {
    if n > 0 {
      assert Falses(n)[1..] == Falses(n - 1);
      CountFalses(n - 1);
    }
  }

  /** Only `Pending` and `Populated` entries are ever admitted. */
  lemma {:induction false} AdmitOnlyEligibleStates(states: seq<FileState>, size: nat, cap: nat, i: nat)
    requires i < |states| && AdmitMask(states, size, cap)[i]
    ensures states[i] == Pending || states[i] == Populated
  {
    var take := Eligible(states[0], size, cap);
    var next := if take then size + 1 else size;
    if i > 0 && next != cap {
      assert AdmitMask(states, size, cap)[i] == AdmitMask(states[1..], next, cap)[i - 1];
      AdmitOnlyEligibleStates(states[1..], next, cap, i - 1);
    }
  }

  /**
   * A `Pending` entry is admitted only while the in-flight pool is below the cap:
   * counting the admissions before it, fewer than `cap` files were in flight.
   */
  lemma {:induction false} AdmitPendingBelowCap(states: seq<FileState>, size: nat, cap: nat, i: nat)
    requires i < |states| && AdmitMask(states, size, cap)[i] && states[i] == Pending
    ensures size + Count(AdmitMask(states, size, cap)[..i]) < cap
  {
    var m := AdmitMask(states, size, cap);
    var take := Eligible(states[0], size, cap);
    var next := if take then size + 1 else size;
    if i > 0 {
      assert next != cap;
      var rest := AdmitMask(states[1..], next, cap);
      assert m == [take] + rest;
      AdmitPendingBelowCap(states[1..], next, cap, i - 1);
      assert m[..i] == [take] + rest[..i - 1];
      CountAppend([take], rest[..i - 1]);
    }
  }

  /**
   * Without `Populated` entries and starting at or below the cap, one scan fills
   * the in-flight pool up to the cap, or admits every `Pending` entry if there are
   * fewer: never more than the cap, never fewer than it can.
   */
  lemma {:induction false} AdmitFillsCap(states: seq<FileState>, size: nat, cap: nat)
    requires NoPopulated(states) && size <= cap
    ensures size + Count(AdmitMask(states, size, cap)) == Min(cap, size + CountPending(states))
  {
    if states != [] {
      var take := Eligible(states[0], size, cap);
      var next := if take then size + 1 else size;
      if next == cap {
        CountAppend([take], Falses(|states| - 1));
        CountFalses(|states| - 1);
      } else {
        assert NoPopulated(states[1..]);
        AdmitFillsCap(states[1..], next, cap);
        CountAppend([take], AdmitMask(states[1..], next, cap));
      }
    }
  }

  /** The cap invariant of one scan: without `Populated` entries, `|inflight| <= cap` is preserved. */
  lemma AdmitWithinCap(states: seq<FileState>, size: nat, cap: nat)
    requires NoPopulated(states) && size <= cap
    ensures size + Count(AdmitMask(states, size, cap)) <= cap
  {
    AdmitFillsCap(states, size, cap);
  }

  /**
   * If the scan ends below the cap, it never stopped early and nothing it could
   * admit was left behind.
   */
  lemma {:induction false} AdmitBelowCapTakesAll(states: seq<FileState>, size: nat, cap: nat, i: nat)
    requires i < |states| && (states[i] == Pending || states[i] == Populated)
    requires size + Count(AdmitMask(states, size, cap)) < cap
    ensures AdmitMask(states, size, cap)[i]
  {
    var take := Eligible(states[0], size, cap);
    var next := if take then size + 1 else size;
    var m := AdmitMask(states, size, cap);
    if next == cap {
      assert false;
    } else {
      var rest := AdmitMask(states[1..], next, cap);
      assert m == [take] + rest;
      CountAppend([take], rest);
      if i > 0 {
        AdmitBelowCapTakesAll(states[1..], next, cap, i - 1);
      }
    }
  }

  /**
   * The loop stops only when the in-flight count EQUALS the cap. Once it is above
   * the cap (through `Populated` admissions) the scan runs to the end, admitting
   * every `Populated` entry and no `Pending` one.
   */
  lemma {:induction false} AdmitAboveCap(states: seq<FileState>, size: nat, cap: nat)
    requires size > cap
    ensures forall i :: 0 <= i < |states| ==> AdmitMask(states, size, cap)[i] == (states[i] == Populated)
  {
    if states != [] {
      var take := Eligible(states[0], size, cap);
      var next := if take then size + 1 else size;
      AdmitAboveCap(states[1..], next, cap);
      var m := AdmitMask(states, size, cap);
      forall i | 0 <= i < |states| ensures m[i] == (states[i] == Populated) {
        if i > 0 { assert m[i] == AdmitMask(states[1..], next, cap)[i - 1]; }
      }
    }
  }

  /** `Populated` entries ignore the cap: two of them admitted with the single slot already taken leave three in flight. */
  lemma PopulatedIgnoresCap()
    ensures AdmitMask([Populated, Pending, Populated], 1, 1) == [true, false, true]
  {
    assert AdmitMask([Populated], 3, 1) == [true];
    assert AdmitMask([Pending, Populated], 2, 1) == [false, true];
  }

  /** Where a scan stands: the entries kept so far, those admitted so far, and the number in flight. */
  datatype Scan<T> = Scan(kept: seq<T>, chosen: set<T>, size: nat)

  /**
   * The scan loop itself, one entry at a time from position `i` of the snapshot
   * `s` (whose states are `states`), as the loop of `checkLoadQueue` runs it:
   * admit or keep the entry, then stop if exactly `cap` files are in flight.
   */
  function ScanFrom<T>(s: seq<T>, states: seq<FileState>, i: nat, acc: Scan<T>, cap: nat): (r: Scan<T>)
    requires |s| == |states| && i <= |s|
    decreases |s| - i
  {
    if i == |s| then acc
    else
      var take := Eligible(states[i], acc.size, cap);
      var next := if take then Scan(acc.kept, acc.chosen + {s[i]}, acc.size + 1)
                  else Scan(acc.kept + [s[i]], acc.chosen, acc.size);
      if next.size == cap then Scan(next.kept + s[i + 1..], next.chosen, next.size)
      else ScanFrom(s, states, i + 1, next, cap)
  }

  /** One step of `Remaining`, `Chosen` and `Count` on a non-empty snapshot. */
  lemma UnfoldStep<T>(t: seq<T>, m: seq<bool>)
    requires |t| == |m| && t != []
    ensures Remaining(t, m) == (if m[0] then [] else [t[0]]) + Remaining(t[1..], m[1..])
    ensures Chosen(t, m) == (if m[0] then {t[0]} else {}) + Chosen(t[1..], m[1..])
    ensures Count(m) == (if m[0] then 1 else 0) + Count(m[1..])
  {
  }

  /** The loop computes what `AdmitMask` decides: it keeps `Remaining`, admits `Chosen` and ends with `Count` more in flight. */
  lemma {:induction false} ScanFromMatchesMask<T>(s: seq<T>, states: seq<FileState>, i: nat, acc: Scan<T>, cap: nat)
    requires |s| == |states| && i <= |s|
    ensures var m := AdmitMask(states[i..], acc.size, cap);
      ScanFrom(s, states, i, acc, cap)
        == Scan(acc.kept + Remaining(s[i..], m), acc.chosen + Chosen(s[i..], m), acc.size + Count(m))
    decreases |s| - i
  {
    var m := AdmitMask(states[i..], acc.size, cap);
    if i == |s| {
      assert acc.kept + [] == acc.kept;
    } else {
      var take := Eligible(states[i], acc.size, cap);
      var head: seq<T> := if take then [] else [s[i]];
      var next := if take then Scan(acc.kept, acc.chosen + {s[i]}, acc.size + 1)
                  else Scan(acc.kept + [s[i]], acc.chosen, acc.size);
      assert next.kept == acc.kept + head;
      assert states[i..][0] == states[i] && states[i..][1..] == states[i + 1..];
      assert s[i..][0] == s[i] && s[i..][1..] == s[i + 1..];
      assert m[0] == take;
      UnfoldStep(s[i..], m);
      var rest := Remaining(s[i + 1..], m[1..]);
      assert acc.kept + Remaining(s[i..], m) == next.kept + rest;
      if next.size == cap {
        assert m[1..] == Falses(|s| - i - 1);
        NoneChosen(s[i + 1..], m[1..]);
      } else {
        assert m[1..] == AdmitMask(states[i + 1..], next.size, cap);
        assert ScanFrom(s, states, i, acc, cap) == ScanFrom(s, states, i + 1, next, cap);
        ScanFromMatchesMask(s, states, i + 1, next, cap);
        assert next.kept + rest == acc.kept + Remaining(s[i..], m);
        assert next.chosen + Chosen(s[i + 1..], m[1..]) == acc.chosen + Chosen(s[i..], m);
      }
    }
  }

  /** A whole scan from the start keeps `Remaining`, admits `Chosen` and adds `Count` to the in-flight number. */
  lemma ScanMatchesMask<T>(s: seq<T>, states: seq<FileState>, size: nat, cap: nat)
    requires |s| == |states|
    ensures var m := AdmitMask(states, size, cap);
      ScanFrom(s, states, 0, Scan([], {}, size), cap) == Scan(Remaining(s, m), Chosen(s, m), size + Count(m))
  {
    ScanFromMatchesMask(s, states, 0, Scan([], {}, size), cap);
    assert states[0..] == states && s[0..] == s;
    var m := AdmitMask(states, size, cap);
    assert [] + Remaining(s, m) == Remaining(s, m) && {} + Chosen(s, m) == Chosen(s, m);
  }

  /** Advancing a scan by one entry, with the entry's decision already taken. */
  lemma ScanAdvance<T>(s: seq<T>, states: seq<FileState>, i: nat, acc: Scan<T>, cap: nat, final: Scan<T>, next: Scan<T>)
    requires |s| == |states| && i < |s| && ScanFrom(s, states, i, acc, cap) == final
    requires next == if Eligible(states[i], acc.size, cap) then Scan(acc.kept, acc.chosen + {s[i]}, acc.size + 1)
                     else Scan(acc.kept + [s[i]], acc.chosen, acc.size)
    ensures next.size == cap ==> final == Scan(next.kept + s[i + 1..], next.chosen, next.size)
    ensures next.size != cap ==> ScanFrom(s, states, i + 1, next, cap) == final
  {
  }

  /** The members of a sequence. */
  function Elems<T>(s: seq<T>): set<T> {
    set x | x in s
  }

  /** Adding a slice's first entry, then the rest of it, adds the whole slice. */
  lemma AddSliceHead<T>(c: set<T>, s: seq<T>, i: nat, j: nat)
    requires i < j <= |s|
    ensures (c + {s[i]}) + Elems(s[i + 1..j]) == c + Elems(s[i..j])
  {
    assert s[i..j] == [s[i]] + s[i + 1..j];
  }

  /**
   * The scan from entry `i`, with `z` files in flight and nothing yet admitted,
   * admits the next `Min(cap - z, |s| - i)` entries, in order, and keeps the
   * rest, in order.
   */
  ghost predicate AdmitsPrefix<T>(s: seq<T>, states: seq<FileState>, i: nat, c: set<T>, z: nat, cap: nat)
    requires |s| == |states| && i <= |s| && z <= cap
  {
    var k := Min(cap - z, |s| - i);
    ScanFrom(s, states, i, Scan([], c, z), cap) == Scan(s[i + k..], c + Elems(s[i..i + k]), z + k)
  }

  /** A scan that reaches a `Pending` entry with the cap already met keeps everything left. */
  lemma ScanPendingAtCap<T>(s: seq<T>, states: seq<FileState>, i: nat, c: set<T>, cap: nat)
    requires |s| == |states| && i < |s| && states[i] == Pending
    ensures AdmitsPrefix(s, states, i, c, cap, cap)
  {
    assert !Eligible(states[i], cap, cap);
    assert ([] + [s[i]]) + s[i + 1..] == s[i..];
    assert s[i..i] == [] && c + Elems([]) == c;
  }

  /** A scan that reaches a `Pending` entry one below the cap admits it and stops. */
  lemma ScanPendingLast<T>(s: seq<T>, states: seq<FileState>, i: nat, c: set<T>, z: nat, cap: nat)
    requires |s| == |states| && i < |s| && z + 1 == cap && states[i] == Pending
    ensures AdmitsPrefix(s, states, i, c, z, cap)
  {
    assert Eligible(states[i], z, cap);
    assert [] + s[i + 1..] == s[i + 1..];
    assert s[i..i + 1] == [s[i]] && Elems([s[i]]) == {s[i]};
  }

  /** A scan that reaches a `Pending` entry further below the cap admits it and goes on. */
  lemma ScanPendingStep<T>(s: seq<T>, states: seq<FileState>, i: nat, c: set<T>, z: nat, cap: nat)
    requires |s| == |states| && i < |s| && z + 1 < cap && states[i] == Pending
    requires AdmitsPrefix(s, states, i + 1, c + {s[i]}, z + 1, cap)
    ensures AdmitsPrefix(s, states, i, c, z, cap)
  {
    assert Eligible(states[i], z, cap);
    var k := Min(cap - z, |s| - i);
    var k' := Min(cap - (z + 1), |s| - (i + 1));
    assert k' == k - 1 && i + 1 + k' == i + k;
    var rest := s[i + 1..i + k];
    assert ScanFrom(s, states, i + 1, Scan([], c + {s[i]}, z + 1), cap) == Scan(s[i + k..], (c + {s[i]}) + Elems(rest), z + k);
    AddSliceHead(c, s, i, i + k);
    var chosen := c + Elems(s[i..i + k]);
    assert ScanFrom(s, states, i, Scan([], c, z), cap) == ScanFrom(s, states, i + 1, Scan([], c + {s[i]}, z + 1), cap);
    assert ScanFrom(s, states, i, Scan([], c, z), cap) == Scan(s[i + k..], chosen, z + k);
  }

  /** When every unvisited entry is `Pending`, the scan admits a prefix of them. */
  lemma {:induction false} ScanAllPending<T>(s: seq<T>, states: seq<FileState>, i: nat, c: set<T>, z: nat, cap: nat)
    requires |s| == |states| && i <= |s| && z <= cap
    requires forall j :: i <= j < |s| ==> states[j] == Pending
    ensures AdmitsPrefix(s, states, i, c, z, cap)
    decreases |s| - i
  {
    if i == |s| {
      assert s[i..i] == [] && c + Elems([]) == c;
    } else if z == cap {
      ScanPendingAtCap(s, states, i, c, cap);
    } else if z + 1 == cap {
      ScanPendingLast(s, states, i, c, z, cap);
    } else {
      ScanAllPending(s, states, i + 1, c + {s[i]}, z + 1, cap);
      ScanPendingStep(s, states, i, c, z, cap);
    }
  }
}
