/** The tracker's table of matching bundles, a LinkedHashMap from bundle to
    capability: a sequence of entries, one per bundle, in insertion order. */
module CapabilityTable {
  import opened Bundles

  /** Is b a key of the table? */
  predicate HasKey(t: seq<Entry>, b: Bundle)
  {
    exists i :: 0 <= i < |t| && t[i].bundle == b
  }

  /** No bundle appears twice: the table is a map. */
  predicate DistinctKeys(t: seq<Entry>)
  {
    forall i, j :: 0 <= i < j < |t| ==> t[i].bundle != t[j].bundle
  }

  /** x was inserted before y, both being keys of the table. */
  predicate Precedes(t: seq<Entry>, x: Bundle, y: Bundle)
  {
    exists i, j :: 0 <= i < j < |t| && t[i].bundle == x && t[j].bundle == y
  }

  /** The capability stored under b (LinkedHashMap.get). */
  function Get(t: seq<Entry>, b: Bundle): (r: Option<Capability>)
    ensures r.None? <==> !HasKey(t, b)
    ensures r.Some? ==> Entry(b, r.value) in t
  {
    if t == [] then None
    else if t[0].bundle == b then Some(t[0].capability)
    else
      var r := Get(t[1..], b);
      assert HasKey(t[1..], b) ==> HasKey(t, b) by {
        if HasKey(t[1..], b) {
          var i :| 0 <= i < |t[1..]| && t[1..][i].bundle == b;
          assert t[i + 1].bundle == b;
        }
      }
      r
  }

  /** In a table with distinct keys the entry of a bundle is what Get returns for it. */
  lemma GetOfMember(t: seq<Entry>, e: Entry)
    requires DistinctKeys(t) && e in t
    ensures Get(t, e.bundle) == Some(e.capability)
  {
    var k :| 0 <= k < |t| && t[k] == e;
    var c := Get(t, e.bundle).value;
    var i :| 0 <= i < |t| && t[i] == Entry(e.bundle, c);
    assert i == k;
  }

  /** The table without b's entry, all others in their order (LinkedHashMap.remove). */
  function Remove(t: seq<Entry>, b: Bundle): (r: seq<Entry>)
    ensures forall e :: e in r <==> e in t && e.bundle != b
    ensures DistinctKeys(t) ==> DistinctKeys(r)
    ensures !HasKey(t, b) ==> r == t
  {
    if t == [] then []
    else if t[0].bundle == b then Remove(t[1..], b)
    else
      var rest := Remove(t[1..], b);
      assert DistinctKeys(t) ==> DistinctKeys([t[0]] + rest) by {
        if DistinctKeys(t) {
          forall j | 0 <= j < |rest| ensures rest[j].bundle != t[0].bundle {
            assert rest[j] in t[1..];
          }
          assert DistinctKeys(t[1..]) by {
            forall i, j | 0 <= i < j < |t[1..]| ensures t[1..][i].bundle != t[1..][j].bundle {
              assert t[i + 1].bundle != t[j + 1].bundle;
            }
          }
        }
      }
      assert !HasKey(t, b) ==> !HasKey(t[1..], b) by {
        if HasKey(t[1..], b) {
          var i :| 0 <= i < |t[1..]| && t[1..][i].bundle == b;
          assert t[i + 1].bundle == b;
        }
      }
      [t[0]] + rest
  }

  /** Removing b keeps every other key, and only those. */
  lemma HasKeyRemove(t: seq<Entry>, b: Bundle, x: Bundle)
    ensures HasKey(Remove(t, b), x) <==> HasKey(t, x) && x != b
  {
    var r := Remove(t, b);
    if HasKey(r, x) {
      var i :| 0 <= i < |r| && r[i].bundle == x;
      assert r[i] in t;
    }
    if HasKey(t, x) && x != b {
      var i :| 0 <= i < |t| && t[i].bundle == x;
      assert t[i] in r;
    }
  }

  /** b's capability becomes c: in place when b is a key, appended last otherwise (LinkedHashMap.put). */
  function Put(t: seq<Entry>, b: Bundle, c: Capability): (r: seq<Entry>)
    ensures !HasKey(t, b) ==> r == t + [Entry(b, c)]
    ensures HasKey(t, b) && DistinctKeys(t) ==>
              |r| == |t| && forall i :: 0 <= i < |t| ==> r[i] == (if t[i].bundle == b then Entry(b, c) else t[i])
  {
    if t == [] then [Entry(b, c)]
    else if t[0].bundle == b then [Entry(b, c)] + t[1..]
    else
      var rest := Put(t[1..], b, c);
      assert HasKey(t, b) ==> HasKey(t[1..], b) by {
        if HasKey(t, b) {
          var i :| 0 <= i < |t| && t[i].bundle == b;
          assert t[1..][i - 1].bundle == b;
        }
      }
      assert !HasKey(t, b) ==> !HasKey(t[1..], b) by {
        if HasKey(t[1..], b) {
          var i :| 0 <= i < |t[1..]| && t[1..][i].bundle == b;
          assert t[i + 1].bundle == b;
        }
      }
      assert DistinctKeys(t) ==> DistinctKeys(t[1..]) by {
        if DistinctKeys(t) {
          forall i, j | 0 <= i < j < |t[1..]| ensures t[1..][i].bundle != t[1..][j].bundle {
            assert t[i + 1].bundle != t[j + 1].bundle;
          }
        }
      }
      assert !HasKey(t, b) ==> [t[0]] + rest == t + [Entry(b, c)] by {
        if !HasKey(t, b) {
          assert t == [t[0]] + t[1..];
        }
      }
      [t[0]] + rest
  }

  /** Putting a bundle that is not a key keeps the table a map. */
  lemma PutNewKeepsDistinct(t: seq<Entry>, b: Bundle, c: Capability)
    requires DistinctKeys(t) && !HasKey(t, b)
    ensures DistinctKeys(Put(t, b, c))
  {
    var r := Put(t, b, c);
    forall i, j | 0 <= i < j < |r| ensures r[i].bundle != r[j].bundle {
      if j == |t| {
        assert r[j].bundle == b;
        assert t[i].bundle != b;
      }
    }
  }

  /** Precedes on a table whose first entry is e. */
  lemma PrecedesCons(e: Entry, u: seq<Entry>, x: Bundle, y: Bundle)
    ensures Precedes([e] + u, x, y) <==> (e.bundle == x && HasKey(u, y)) || Precedes(u, x, y)
  {
    var t := [e] + u;
    if Precedes(t, x, y) {
      var i, j :| 0 <= i < j < |t| && t[i].bundle == x && t[j].bundle == y;
      if i == 0 {
        assert u[j - 1].bundle == y;
      } else {
        assert u[i - 1].bundle == x && u[j - 1].bundle == y;
      }
    }
    if e.bundle == x && HasKey(u, y) {
      var j :| 0 <= j < |u| && u[j].bundle == y;
      assert t[0].bundle == x && t[j + 1].bundle == y;
    }
    if Precedes(u, x, y) {
      var i, j :| 0 <= i < j < |u| && u[i].bundle == x && u[j].bundle == y;
      assert t[i + 1].bundle == x && t[j + 1].bundle == y;
    }
  }

  /** Removing one bundle keeps the relative order of all the others. */
  lemma {:induction false} RemovePreservesOrder(t: seq<Entry>, b: Bundle, x: Bundle, y: Bundle)
    requires x != b && y != b
    ensures Precedes(Remove(t, b), x, y) <==> Precedes(t, x, y)
    decreases |t|
  {
    if t != [] {
      RemovePreservesOrder(t[1..], b, x, y);
      assert t == [t[0]] + t[1..];
      PrecedesCons(t[0], t[1..], x, y);
      if t[0].bundle != b {
        PrecedesCons(t[0], Remove(t[1..], b), x, y);
        HasKeyRemove(t[1..], b, y);
      }
    }
  }

  /** Appending an entry keeps the relative order of the keys already present,
      and puts its bundle after every one of them. */
  lemma AppendOrder(t: seq<Entry>, e: Entry, x: Bundle, y: Bundle)
    ensures x != e.bundle && y != e.bundle ==> (Precedes(t + [e], x, y) <==> Precedes(t, x, y))
    ensures HasKey(t, x) ==> Precedes(t + [e], x, e.bundle)
  {
    var r := t + [e];
    if x != e.bundle && y != e.bundle && Precedes(r, x, y) {
      var i, j :| 0 <= i < j < |r| && r[i].bundle == x && r[j].bundle == y;
      assert j < |t|;
      assert t[i].bundle == x && t[j].bundle == y;
    }
    if Precedes(t, x, y) {
      var i, j :| 0 <= i < j < |t| && t[i].bundle == x && t[j].bundle == y;
      assert r[i].bundle == x && r[j].bundle == y;
    }
    if HasKey(t, x) {
      var i :| 0 <= i < |t| && t[i].bundle == x;
      assert r[i].bundle == x && r[|t|].bundle == e.bundle;
    }
  }

  /** Removing another bundle does not change what Get returns for x. */
  lemma GetRemove(t: seq<Entry>, b: Bundle, x: Bundle)
    requires DistinctKeys(t) && x != b
    ensures Get(Remove(t, b), x) == Get(t, x)
  {
    HasKeyRemove(t, b, x);
    if HasKey(t, x) {
      GetOfMember(Remove(t, b), Entry(x, Get(t, x).value));
    }
  }

  /** Appending another bundle's entry does not change what Get returns for x. */
  lemma GetAppend(t: seq<Entry>, e: Entry, x: Bundle)
    requires DistinctKeys(t + [e]) && x != e.bundle
    ensures Get(t + [e], x) == Get(t, x)
  {
    if HasKey(t, x) {
      GetOfMember(t + [e], Entry(x, Get(t, x).value));
    }
  }

  /** The keys after appending an entry: the old ones and the new entry's bundle. */
  lemma HasKeyAppend(t: seq<Entry>, e: Entry, x: Bundle)
    ensures HasKey(t + [e], x) <==> HasKey(t, x) || x == e.bundle
  {
    if HasKey(t + [e], x) && x != e.bundle {
      var i :| 0 <= i < |t + [e]| && (t + [e])[i].bundle == x;
      assert t[i].bundle == x;
    }
    if HasKey(t, x) {
      var i :| 0 <= i < |t| && t[i].bundle == x;
      assert (t + [e])[i].bundle == x;
    }
    assert (t + [e])[|t|] == e;
  }
}
