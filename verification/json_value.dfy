/**
  The values the JSON grammar builds.  An object is the list of its
  properties in insertion order, as a JavaScript object enumerates them: the
  keys are string-literal images with their quotes still on, so none of them
  is an integer index that JavaScript would order first.
*/
module JsonValue {
  import opened Wrappers
  import SeqFacts

  datatype Json =
    | JString(text: string)
    | JNumber(lexeme: string)
    | JObject(members: seq<Member>)
    | JArray(elements: seq<Json>)
    | JTrue
    | JFalse
    | JNull

  datatype Member = Member(key: string, value: Json)

  function KeySet(ms: seq<Member>): set<string>
  {
    if |ms| == 0 then {} else {ms[0].key} + KeySet(ms[1..])
  }

  /** The keys of an object are the keys of its members. */
  lemma {:induction false} KeySetMembers(ms: seq<Member>, k: string)
    ensures k in KeySet(ms) <==> exists i :: 0 <= i < |ms| && ms[i].key == k
  {
    if |ms| > 0 {
      KeySetMembers(ms[1..], k);
      if k in KeySet(ms[1..]) {
        var i :| 0 <= i < |ms[1..]| && ms[1..][i].key == k;
        assert ms[i + 1].key == k;
      }
      if exists i :: 0 <= i < |ms| && ms[i].key == k {
        var i :| 0 <= i < |ms| && ms[i].key == k;
        if i > 0 {
          assert ms[1..][i - 1].key == k;
        }
      }
    }
  }

  /** No key occurs twice. */
  predicate DistinctKeys(ms: seq<Member>)
  {
    |ms| == 0 || (ms[0].key !in KeySet(ms[1..]) && DistinctKeys(ms[1..]))
  }

  /** Property access `obj[k]`: the value stored under `k`, if any. */
  function Lookup(ms: seq<Member>, k: string): (r: Option<Json>)
    ensures r.Some? <==> k in KeySet(ms)
  {
    if |ms| == 0 then None
    else if ms[0].key == k then Some(ms[0].value)
    else Lookup(ms[1..], k)
  }

  /** The value of the last member of `ms` whose key is `k`. */
  function LastBinding(ms: seq<Member>, k: string): Option<Json>
  {
    if |ms| == 0 then None
    else if ms[|ms| - 1].key == k then Some(ms[|ms| - 1].value)
    else LastBinding(ms[..|ms| - 1], k)
  }

  /** `_.assign(obj, {k: v})`: an existing property keeps its place and takes
      the new value, a new one is appended. */
  function Assign(ms: seq<Member>, m: Member): (r: seq<Member>)
    ensures Lookup(r, m.key) == Some(m.value)
    ensures forall k :: k != m.key ==> Lookup(r, k) == Lookup(ms, k)
  {
    if |ms| == 0 then [m]
    else if ms[0].key == m.key then
      assert ([m] + ms[1..])[1..] == ms[1..];
      [m] + ms[1..]
    else
      var r := [ms[0]] + Assign(ms[1..], m);
      assert r[1..] == Assign(ms[1..], m);
      r
  }

  /** Assigning an existing key keeps the properties where they are; a new
      key goes last. */
  lemma {:induction false} AssignKeys(ms: seq<Member>, m: Member)
    ensures KeySet(Assign(ms, m)) == KeySet(ms) + {m.key}
    ensures m.key in KeySet(ms) ==> |Assign(ms, m)| == |ms|
    ensures m.key !in KeySet(ms) ==> Assign(ms, m) == ms + [m]
  {
    if |ms| > 0 {
      var r := Assign(ms, m);
      if ms[0].key == m.key {
        assert r[1..] == ms[1..];
      } else {
        assert r[1..] == Assign(ms[1..], m);
        AssignKeys(ms[1..], m);
      }
    }
  }

  /** On an object, `_.assign` writes in place: each property keeps its
      position, and only the one under the assigned key changes value. */
  lemma {:induction false} AssignInPlace(ms: seq<Member>, m: Member)
    requires DistinctKeys(ms)
    ensures |Assign(ms, m)| >= |ms|
    ensures forall i :: 0 <= i < |ms| ==> Assign(ms, m)[i] == if ms[i].key == m.key then m else ms[i]
  {
    if |ms| > 0 {
      var r := Assign(ms, m);
      if ms[0].key == m.key {
        assert r[1..] == ms[1..];
        forall i | 1 <= i < |ms| ensures ms[i].key != m.key {
          KeySetMembers(ms[1..], ms[i].key);
          assert ms[1..][i - 1].key == ms[i].key;
        }
      } else {
        assert r[1..] == Assign(ms[1..], m);
        AssignInPlace(ms[1..], m);
        forall i | 1 <= i < |ms| ensures r[i] == if ms[i].key == m.key then m else ms[i] {
          assert r[i] == Assign(ms[1..], m)[i - 1];
          assert ms[i] == ms[1..][i - 1];
        }
      }
    }
  }

  /** `_.assign` never duplicates a key. */
  lemma {:induction false} AssignDistinct(ms: seq<Member>, m: Member)
    requires DistinctKeys(ms)
    ensures DistinctKeys(Assign(ms, m))
  {
    if |ms| > 0 {
      var r := Assign(ms, m);
      if ms[0].key == m.key {
        assert r[1..] == ms[1..];
      } else {
        assert r[1..] == Assign(ms[1..], m);
        AssignKeys(ms[1..], m);
        AssignDistinct(ms[1..], m);
      }
    }
  }

  /** Folding `_.assign` over the members in order, from `acc`. */
  function MergeInto(acc: seq<Member>, ms: seq<Member>): seq<Member>
    decreases |ms|
  {
    if |ms| == 0 then acc else MergeInto(Assign(acc, ms[0]), ms[1..])
  }

  /** The object built from `ms` one property at a time. */
  function Merge(ms: seq<Member>): seq<Member>
  {
    MergeInto([], ms)
  }

  /** Merging one more member is one more `_.assign`. */
  lemma {:induction false} MergeIntoSnoc(acc: seq<Member>, ms: seq<Member>, m: Member)
    ensures MergeInto(acc, ms + [m]) == Assign(MergeInto(acc, ms), m)
    decreases |ms|
  {
    if |ms| == 0 {
      assert ms + [m] == [m];
      assert [m][1..] == [];
    } else {
      assert (ms + [m])[1..] == ms[1..] + [m];
      MergeIntoSnoc(Assign(acc, ms[0]), ms[1..], m);
    }
  }

  /** After merging, a key maps to the value of its last occurrence, and a
      key that does not occur keeps its earlier value. */
  lemma {:induction false} MergeIntoLookup(acc: seq<Member>, ms: seq<Member>, k: string)
    ensures Lookup(MergeInto(acc, ms), k) ==
            if LastBinding(ms, k).Some? then LastBinding(ms, k) else Lookup(acc, k)
  {
    if |ms| > 0 {
      var init, last := ms[..|ms| - 1], ms[|ms| - 1];
      assert ms == init + [last];
      MergeIntoSnoc(acc, init, last);
      MergeIntoLookup(acc, init, k);
    }
  }

  /** The properties of a merged object: exactly the keys that occur, each
      once, each bound to its last value. */
  lemma MergeLookup(ms: seq<Member>, k: string)
    ensures Lookup(Merge(ms), k) == LastBinding(ms, k)
  {
    MergeIntoLookup([], ms, k);
  }

  lemma {:induction false} MergeIntoDistinct(acc: seq<Member>, ms: seq<Member>)
    requires DistinctKeys(acc)
    ensures DistinctKeys(MergeInto(acc, ms))
    ensures KeySet(MergeInto(acc, ms)) == KeySet(acc) + KeySet(ms)
    decreases |ms|
  {
    if |ms| > 0 {
      AssignDistinct(acc, ms[0]);
      AssignKeys(acc, ms[0]);
      MergeIntoDistinct(Assign(acc, ms[0]), ms[1..]);
    }
  }

  lemma MergeDistinct(ms: seq<Member>)
    ensures DistinctKeys(Merge(ms))
    ensures KeySet(Merge(ms)) == KeySet(ms)
  {
    MergeIntoDistinct([], ms);
  }

  /** Merging members whose keys are already distinct changes nothing: order
      and values are kept. */
  lemma {:induction false} MergeIntoDistinctAppends(acc: seq<Member>, ms: seq<Member>)
    requires DistinctKeys(ms)
    requires KeySet(acc) !! KeySet(ms)
    ensures MergeInto(acc, ms) == acc + ms
    decreases |ms|
  {
    if |ms| > 0 {
      AssignKeys(acc, ms[0]);
      var acc' := Assign(acc, ms[0]);
      assert acc' == acc + [ms[0]];
      MergeIntoDistinctAppends(acc', ms[1..]);
      SeqFacts.ConsAppend(acc, ms[0], ms[1..], ms);
    } else {
      assert acc + ms == acc;
    }
  }

  lemma MergeOfDistinct(ms: seq<Member>)
    requires DistinctKeys(ms)
    ensures Merge(ms) == ms
  {
    MergeIntoDistinctAppends([], ms);
  }

  /** Every object inside `v`, at any depth, has distinct keys: the shape of
      every value the JSON grammar builds. */
  ghost predicate Canonical(v: Json)
  {
    match v
    case JObject(ms) => CanonicalMembers(ms)
    case JArray(vs) => AllCanonical(vs)
    case _ => true
  }

  ghost predicate AllCanonical(vs: seq<Json>)
  {
    forall i :: 0 <= i < |vs| ==> Canonical(vs[i])
  }

  lemma AllCanonicalSnoc(vs: seq<Json>, v: Json)
    requires AllCanonical(vs) && Canonical(v)
    ensures AllCanonical(vs + [v])
  {
    assert forall i :: 0 <= i < |vs| ==> (vs + [v])[i] == vs[i];
  }

  ghost predicate CanonicalMembers(ms: seq<Member>)
  {
    DistinctKeys(ms) && forall i :: 0 <= i < |ms| ==> Canonical(ms[i].value)
  }

  /** Every member after `_.assign` is the assigned one or an old one. */
  lemma {:induction false} AssignMembers(ms: seq<Member>, m: Member, i: nat)
    requires i < |Assign(ms, m)|
    ensures Assign(ms, m)[i] == m || Assign(ms, m)[i] in ms
  {
    if |ms| > 0 && ms[0].key != m.key && i > 0 {
      assert Assign(ms, m)[i] == Assign(ms[1..], m)[i - 1];
      AssignMembers(ms[1..], m, i - 1);
    }
  }

  lemma AssignCanonical(ms: seq<Member>, m: Member)
    requires CanonicalMembers(ms) && Canonical(m.value)
    ensures CanonicalMembers(Assign(ms, m))
  {
    AssignDistinct(ms, m);
    forall i | 0 <= i < |Assign(ms, m)| ensures Canonical(Assign(ms, m)[i].value) {
      AssignMembers(ms, m, i);
    }
  }
}
