/** The value computations behind the filter editor's pills and counters,
    written the same way in components/FilterModal.tsx and app/filter.tsx:
    the property-type toggle (`includes` then `filter` or append) and the
    saturating bedroom/bathroom counters (`Math.min(v + 1, 10)`,
    `Math.max(v - 1, 0)`). */
module FilterEdits {
  import opened FilterTypes

  /** `s.filter((x) => x !== t)`: every occurrence of `t` dropped, the other
      labels kept, in their order. */
  function Without(s: seq<string>, t: string): (r: seq<string>)
    ensures multiset(r) == multiset(s)[t := 0]
    ensures t !in r
    ensures forall u :: u != t ==> (u in r <==> u in s)
    decreases |s|
  {
    if s == [] then []
    else
      assert s == [s[0]] + s[1..];
      (if s[0] == t then [] else [s[0]]) + Without(s[1..], t)
  }

  /** Filtering distributes over concatenation, so the labels that stay keep
      their relative order. */
  lemma {:induction false} WithoutAppend(a: seq<string>, b: seq<string>, t: string)
    ensures Without(a + b, t) == Without(a, t) + Without(b, t)
    decreases |a|
  {
    if a != [] {
      assert (a + b)[1..] == a[1..] + b;
      WithoutAppend(a[1..], b, t);
    } else {
      assert a + b == b;
    }
  }

  /** Filtering out a label that is not there changes nothing. */
  lemma {:induction false} WithoutAbsent(s: seq<string>, t: string)
    requires t !in s
    ensures Without(s, t) == s
    decreases |s|
  {
    if s != [] {
      WithoutAbsent(s[1..], t);
      assert s == [s[0]] + s[1..];
    }
  }

  /** A list with a label in front is duplicate-free exactly when the label
      is not in the rest and the rest is duplicate-free. */
  lemma ConsNoDuplicates(x: string, s: seq<string>)
    ensures NoDuplicates([x] + s) <==> x !in s && NoDuplicates(s)
  {
    var c := [x] + s;
    assert forall k :: 0 <= k < |s| ==> c[k + 1] == s[k];
    if x !in s && NoDuplicates(s) {
      forall i, j | 0 <= i < j < |c| ensures c[i] != c[j] {
        assert c[j] == s[j - 1];
        if i > 0 { assert c[i] == s[i - 1]; }
      }
    }
    if NoDuplicates(c) {
      forall i, j | 0 <= i < j < |s| ensures s[i] != s[j] {
        assert c[i + 1] == s[i] && c[j + 1] == s[j];
      }
      forall k | 0 <= k < |s| ensures s[k] != x {
        assert c[0] == x;
      }
    }
  }

  /** Filtering keeps a duplicate-free list duplicate-free. */
  lemma {:induction false} WithoutKeepsNoDuplicates(s: seq<string>, t: string)
    requires NoDuplicates(s)
    ensures NoDuplicates(Without(s, t))
    decreases |s|
  {
    if s != [] {
      assert s == [s[0]] + s[1..];
      ConsNoDuplicates(s[0], s[1..]);
      WithoutKeepsNoDuplicates(s[1..], t);
      var rest := Without(s[1..], t);
      if s[0] != t {
        ConsNoDuplicates(s[0], rest);
      } else {
        assert [] + rest == rest;
      }
    }
  }

  /** `togglePropertyType`: a label that is present has every occurrence
      removed; an absent label is appended at the end. */
  function Toggle(types: seq<string>, t: string): (r: seq<string>)
    ensures t in r <==> t !in types
    ensures forall u :: u != t ==> (u in r <==> u in types)
    ensures t in types ==> r == Without(types, t)
    ensures t in types ==> multiset(r) == multiset(types)[t := 0]
    ensures t !in types ==> r == types + [t]
  {
    if t in types then Without(types, t) else types + [t]
  }

  /** Toggling keeps a duplicate-free list duplicate-free. */
  lemma ToggleKeepsNoDuplicates(types: seq<string>, t: string)
    requires NoDuplicates(types)
    ensures NoDuplicates(Toggle(types, t))
  {
    if t in types {
      WithoutKeepsNoDuplicates(types, t);
    } else {
      var r := types + [t];
      forall i, j | 0 <= i < j < |r| ensures r[i] != r[j] {
        if j == |types| {
          assert r[i] == types[i];
        } else {
          assert r[i] == types[i] && r[j] == types[j];
        }
      }
    }
  }

  /** Toggling an absent label twice gives back exactly the original list. */
  lemma ToggleTwiceAbsent(types: seq<string>, t: string)
    requires t !in types
    ensures Toggle(Toggle(types, t), t) == types
  {
    WithoutAppend(types, [t], t);
    WithoutAbsent(types, t);
    assert Without([t], t) == [];
  }

  /** Toggling a present label twice restores the set of selected labels;
      in a duplicate-free list the label comes back at the end. */
  lemma ToggleTwicePresent(types: seq<string>, t: string)
    requires t in types
    ensures forall u :: u in Toggle(Toggle(types, t), t) <==> u in types
    ensures Toggle(Toggle(types, t), t) == Without(types, t) + [t]
  {
  }

  function Min(a: int, b: int): int { if a < b then a else b }
  function Max(a: int, b: int): int { if a > b then a else b }

  /** The `disabled` conditions of a counter's two buttons. */
  predicate DecrementEnabled(v: int) { !(v <= 0) }
  predicate IncrementEnabled(v: int) { !(v >= MaxCount) }

  /** `Math.min(v + 1, 10)`. */
  function Increment(v: int): (r: int)
    ensures r <= MaxCount
    ensures CountInRange(v) ==> CountInRange(r)
    ensures v < MaxCount ==> r == v + 1
    ensures r == v <==> v == MaxCount
  {
    Min(v + 1, MaxCount)
  }

  /** `Math.max(v - 1, 0)`. */
  function Decrement(v: int): (r: int)
    ensures r >= 0
    ensures CountInRange(v) ==> CountInRange(r)
    ensures v > 0 ==> r == v - 1
    ensures r == v <==> v == 0
  {
    Max(v - 1, 0)
  }

  /** A counter whose button is disabled is left as it is by the handler
      as well, so calling the handler programmatically is safe. */
  lemma DisabledCounterIsNoOp(v: int)
    requires CountInRange(v)
    ensures !IncrementEnabled(v) ==> Increment(v) == v
    ensures !DecrementEnabled(v) ==> Decrement(v) == v
  {
  }

  /** One press of a counter button. */
  datatype CounterStep = Inc | Dec

  /** The value after pressing the buttons in the order given. */
  function RunCounter(v: int, steps: seq<CounterStep>): int
    decreases |steps|
  {
    if steps == [] then v
    else RunCounter(if steps[0] == Inc then Increment(v) else Decrement(v), steps[1..])
  }

  /** A counter that starts in [0, 10] stays there whatever the presses. */
  lemma {:induction false} CounterStaysInRange(v: int, steps: seq<CounterStep>)
    requires CountInRange(v)
    ensures CountInRange(RunCounter(v, steps))
    decreases |steps|
  {
    if steps != [] {
      CounterStaysInRange(if steps[0] == Inc then Increment(v) else Decrement(v), steps[1..]);
    }
  }

  /** Every pill and counter edit keeps a well-formed shape well formed and
      changes only its own field. */
  lemma EditsPreserveWellFormed(f: FilterShape, price: Bounds, size: Bounds, t: string)
    requires WellFormed(f, price, size)
    ensures WellFormed(f.(types := Toggle(f.types, t)), price, size)
    ensures WellFormed(f.(bedrooms := Increment(f.bedrooms)), price, size)
    ensures WellFormed(f.(bedrooms := Decrement(f.bedrooms)), price, size)
    ensures WellFormed(f.(bathrooms := Increment(f.bathrooms)), price, size)
    ensures WellFormed(f.(bathrooms := Decrement(f.bathrooms)), price, size)
  {
    ToggleKeepsNoDuplicates(f.types, t);
  }
}
