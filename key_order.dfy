/**
 * Key order under the writer setting ORDER_MAP_ENTRIES_BY_KEYS
 * (RequirementsToolMojo.java line 105): keys compared with String.compareTo,
 * character by character, a proper prefix before every extension of it.
 * Whether the JSON library applies that setting to tree nodes is decided
 * outside this code; the model assumes the sorted order. For the keys
 * combineOutput creates, the sorted order is also their insertion order.
 */
module KeyOrder {

  /** String.compareTo(a, b) < 0. */
  predicate Less(a: string, b: string)
    decreases |a|
  {
    if |a| == 0 then |b| > 0
    else if |b| == 0 then false
    else if a[0] == b[0] then Less(a[1..], b[1..])
    else a[0] < b[0]
  }

  lemma {:induction false} LessIrreflexive(a: string)
    ensures !Less(a, a)
    decreases |a|
  {
    if |a| > 0 {
      LessIrreflexive(a[1..]);
    }
  }

  lemma {:induction false} LessTransitive(a: string, b: string, c: string)
    requires Less(a, b) && Less(b, c)
    ensures Less(a, c)
    decreases |a|
  {
    if |a| > 0 && |b| > 0 && |c| > 0 && a[0] == b[0] && b[0] == c[0] {
      LessTransitive(a[1..], b[1..], c[1..]);
    }
  }

  lemma {:induction false} LessTotal(a: string, b: string)
    requires a != b
    ensures Less(a, b) || Less(b, a)
    decreases |a|
  {
    if |a| > 0 && |b| > 0 && a[0] == b[0] {
      assert a == [a[0]] + a[1..] && b == [b[0]] + b[1..];
      LessTotal(a[1..], b[1..]);
    }
  }

  /** Keys in strictly increasing order: sorted and without repetitions. */
  predicate StrictlySorted(s: seq<string>) {
    forall i, j :: 0 <= i < j < |s| ==> Less(s[i], s[j])
  }

  lemma SmallerThanSorted(k: string, s: seq<string>)
    requires StrictlySorted(s) && |s| > 0 && Less(k, s[0])
    ensures forall x :: x in s ==> Less(k, x)
  {
    forall x | x in s
      ensures Less(k, x)
    {
      if x != s[0] {
        LessTransitive(k, s[0], x);
      }
    }
  }

  /** Inserts a new key into a strictly sorted sequence at its place. */
  function Insert(k: string, s: seq<string>): (r: seq<string>)
    requires StrictlySorted(s) && k !in s
    ensures StrictlySorted(r)
    ensures forall x :: x in r <==> x == k || x in s
  {
    if |s| == 0 then [k]
    else if Less(k, s[0]) then
      SmallerThanSorted(k, s);
      [k] + s
    else
      LessTotal(k, s[0]);
      var rest := Insert(k, s[1..]);
      assert forall x :: x in rest ==> Less(s[0], x);
      [s[0]] + rest
  }

  /** The keys of an object in ascending String.compareTo order: the order
      the writer emits them in, as the model assumes. */
  ghost function SortedKeys(keys: set<string>): (r: seq<string>)
    ensures StrictlySorted(r)
    ensures forall x :: x in r <==> x in keys
    decreases keys
  {
    if keys == {} then []
    else
      var k :| k in keys;
      Insert(k, SortedKeys(keys - {k}))
  }

  /** A strictly sorted enumeration of a set of keys is unique: the emitted key
      order depends on nothing but the keys themselves. */
  lemma {:induction false} SortedUnique(s: seq<string>, t: seq<string>)
    requires StrictlySorted(s) && StrictlySorted(t)
    requires forall x :: x in s <==> x in t
    ensures s == t
    decreases |s|
  {
    assert |t| > 0 ==> t[0] in s;
    if |s| > 0 {
      assert s[0] in t;
      assert t[0] in s;
      if s[0] != t[0] {
        var i :| 0 <= i < |s| && s[i] == t[0];
        var j :| 0 <= j < |t| && t[j] == s[0];
        assert Less(s[0], t[0]) && Less(t[0], s[0]);
        LessTransitive(s[0], t[0], s[0]);
        LessIrreflexive(s[0]);
      }
      forall x
        ensures x in s[1..] <==> x in t[1..]
      {
        LessIrreflexive(x);
        if x in s[1..] {
          var i :| 1 <= i < |s| && s[i] == x;
          assert Less(s[0], s[i]) && x in s && x in t;
          var j :| 0 <= j < |t| && t[j] == x;
          assert j != 0;
          assert t[1..][j - 1] == x;
        }
        if x in t[1..] {
          var j :| 1 <= j < |t| && t[j] == x;
          assert Less(t[0], t[j]) && x in t && x in s;
          var i :| 0 <= i < |s| && s[i] == x;
          assert i != 0;
          assert s[1..][i - 1] == x;
        }
      }
      SortedUnique(s[1..], t[1..]);
    }
  }
}
