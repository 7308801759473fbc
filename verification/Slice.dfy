/** Set operations on slices, by counting and by marking what has been seen. */
module Slice {

  ghost predicate NoDuplicates<T>(s: seq<T>) {
    forall i, j :: 0 <= i < j < |s| ==> s[i] != s[j]
  }

  /** How many of the slices contain the value. */
  ghost function Tally<T>(slices: seq<seq<T>>, v: T): nat {
    if slices == [] then 0
    else Tally(slices[..|slices| - 1], v) + if v in slices[|slices| - 1] then 1 else 0
  }

  lemma {:induction false} FullTally<T>(slices: seq<seq<T>>, v: T)
    ensures Tally(slices, v) <= |slices|
    ensures Tally(slices, v) == |slices| <==> forall i :: 0 <= i < |slices| ==> v in slices[i]
  {
    if slices != [] {
      FullTally(slices[..|slices| - 1], v);
    }
  }

  /** Some enumeration of a set, as a map iteration or a Redis reply would give it. */
  method Enumerate<T(==)>(s: set<T>) returns (list: seq<T>)
    ensures NoDuplicates(list)
    ensures forall v :: v in list <==> v in s
  {
    list := [];
    var rest := s;
    while rest != {}
      invariant rest <= s && NoDuplicates(list)
      invariant forall v :: v in list <==> v in s && v !in rest
      decreases rest
    {
      var v :| v in rest;
      list := list + [v];
      rest := rest - {v};
    }
  }

  /** The values that occur in every slice, each once; nothing when there are no slices. */
  method Intersection<T(==)>(slices: seq<seq<T>>) returns (result: seq<T>)
    ensures NoDuplicates(result)
    ensures forall v :: v in result <==> slices != [] && forall i :: 0 <= i < |slices| ==> v in slices[i]
  {
    if |slices| == 0 {
      return [];
    }
    var counter: map<T, nat> := map[];
    var want := |slices|;
    for i := 0 to |slices|
      invariant forall v :: (if v in counter then counter[v] else 0) == Tally(slices[..i], v)
    {
      assert slices[..i + 1][..i] == slices[..i];
      var slice := slices[i];
      ghost var before := counter;
      var seen: set<T> := {};
      for j := 0 to |slice|
        invariant forall v :: v in seen <==> v in slice[..j]
        invariant forall v :: (if v in counter then counter[v] else 0)
                           == (if v in before then before[v] else 0) + if v in seen then 1 else 0
      {
        var value := slice[j];
        if value !in seen {
          counter := counter[value := (if value in counter then counter[value] else 0) + 1];
          seen := seen + {value};
        }
      }
      assert slice[..|slice|] == slice;
    }
    assert slices[..|slices|] == slices;
    forall v ensures Tally(slices, v) == want <==> forall i :: 0 <= i < |slices| ==> v in slices[i] {
      FullTally(slices, v);
    }
    result := Enumerate(set key | key in counter && counter[key] == want);
  }

  /** The values of the base, in order, that occur in none of the other slices. */
  method Difference<T(==)>(base: seq<T>, others: seq<seq<T>>) returns (result: seq<T>)
    ensures forall v :: v in result <==> v in base && forall i :: 0 <= i < |others| ==> v !in others[i]
    ensures NoDuplicates(base) ==> NoDuplicates(result)
    ensures result == Without(base, others)
  {
    if |base| == 0 {
      return [];
    }
    var seen: set<T> := {};
    for i := 0 to |others|
      invariant forall v :: v in seen <==> exists k :: 0 <= k < i && v in others[k]
    {
      for j := 0 to |others[i]|
        invariant forall v :: v in seen <==> (exists k :: 0 <= k < i && v in others[k]) || v in others[i][..j]
      {
        seen := seen + {others[i][j]};
      }
      assert others[i][..|others[i]|] == others[i];
    }
    result := [];
    for i := 0 to |base|
      invariant result == Without(base[..i], others)
    {
      assert base[..i + 1][..i] == base[..i];
      if base[i] !in seen {
        result := result + [base[i]];
      }
    }
    assert base[..|base|] == base;
    WithoutSound(base, others);
  }

  function Without<T(==)>(base: seq<T>, others: seq<seq<T>>): seq<T> {
    if base == [] then []
    else
      var v := base[|base| - 1];
      var front := Without(base[..|base| - 1], others);
      if exists k :: 0 <= k < |others| && v in others[k] then front else front + [v]
  }

  lemma {:induction false} WithoutSound<T>(base: seq<T>, others: seq<seq<T>>)
    ensures forall v :: v in Without(base, others) <==> v in base && forall i :: 0 <= i < |others| ==> v !in others[i]
    ensures NoDuplicates(base) ==> NoDuplicates(Without(base, others))
  {
    if base != [] {
      var front := base[..|base| - 1];
      WithoutSound(front, others);
      assert base == front + [base[|base| - 1]];
      if NoDuplicates(base) {
        assert forall i :: 0 <= i < |front| ==> base[i] == front[i];
        assert base[|base| - 1] !in front;
        assert NoDuplicates(Without(front, others));
      }
    }
  }
}
