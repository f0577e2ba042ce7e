/**
 * JavaScript plain objects with string keys (`Record<string, T>`), as the
 * onboarding code uses them for the draft's area map and for the id
 * dictionaries.  An object is its list of entries in insertion order; every
 * key occurs at most once.  `Put` is the spread update `{ ...r, [k]: v }`:
 * an existing key keeps its position and takes the new value, a new key goes
 * to the end.
 */
module Records {
  import opened Optional

  type Rec<T> = seq<(string, T)>

  /** `Object.keys(r)`. */
  function Keys<T>(r: Rec<T>): (ks: seq<string>)
    ensures |ks| == |r|
  {
    if r == [] then [] else [r[0].0] + Keys(r[1..])
  }

  lemma {:induction false} KeysAt<T>(r: Rec<T>, i: nat)
    requires i < |r|
    ensures Keys(r)[i] == r[i].0
  {
    if i > 0 {
      KeysAt(r[1..], i - 1);
    }
  }

  /** No key occurs twice, as in every JavaScript object. */
  predicate DistinctKeys<T>(r: Rec<T>)
  {
    forall i, j :: 0 <= i < j < |r| ==> r[i].0 != r[j].0
  }

  /** `r[k]`, with `None` for `undefined`. */
  function Get<T>(r: Rec<T>, k: string): (o: Option<T>)
    ensures o.Some? <==> k in Keys(r)
  {
    if r == [] then None
    else if r[0].0 == k then Some(r[0].1)
    else Get(r[1..], k)
  }

  /** `{ ...r, [k]: v }`. */
  function Put<T>(r: Rec<T>, k: string, v: T): (r': Rec<T>)
    ensures Get(r', k) == Some(v)
    ensures forall j :: j != k ==> Get(r', j) == Get(r, j)
  {
    if r == [] then [(k, v)]
    else if r[0].0 == k then [(k, v)] + r[1..]
    else [r[0]] + Put(r[1..], k, v)
  }

  /** A new key goes to the end of `Object.keys`; an existing one keeps its place. */
  lemma {:induction false} PutKeys<T>(r: Rec<T>, k: string, v: T)
    ensures Keys(Put(r, k, v)) == if k in Keys(r) then Keys(r) else Keys(r) + [k]
  {
    if r != [] && r[0].0 != k {
      PutKeys(r[1..], k, v);
    }
  }

  /** With distinct keys, entry `i` is the only one under its key. */
  lemma {:induction false} GetAt<T>(r: Rec<T>, i: nat)
    requires DistinctKeys(r) && i < |r|
    ensures Get(r, r[i].0) == Some(r[i].1)
  {
    if i > 0 {
      assert DistinctKeys(r[1..]) by {
        forall a, b | 0 <= a < b < |r[1..]| ensures r[1..][a].0 != r[1..][b].0 {
          assert r[1..][a] == r[a + 1] && r[1..][b] == r[b + 1];
        }
      }
      GetAt(r[1..], i - 1);
    }
  }

  /** With distinct keys, `Put` rewrites exactly the entry under `k`, or appends one. */
  lemma {:induction false} PutAt<T>(r: Rec<T>, k: string, v: T)
    requires DistinctKeys(r)
    ensures |Put(r, k, v)| == if k in Keys(r) then |r| else |r| + 1
    ensures forall i :: 0 <= i < |r| ==> Put(r, k, v)[i] == if r[i].0 == k then (k, v) else r[i]
    ensures k !in Keys(r) ==> Put(r, k, v)[|r|] == (k, v)
  {
    if r != [] && r[0].0 != k {
      assert DistinctKeys(r[1..]) by {
        forall a, b | 0 <= a < b < |r[1..]| ensures r[1..][a].0 != r[1..][b].0 {
          assert r[1..][a] == r[a + 1] && r[1..][b] == r[b + 1];
        }
      }
      PutAt(r[1..], k, v);
    } else if r != [] {
      forall i | 0 < i < |r| ensures r[i].0 != k {
        assert r[0].0 != r[i].0;
      }
    }
  }

  /** Each entry after `Put` is the new one or the entry that was at that place. */
  lemma {:induction false} PutEntries<T>(r: Rec<T>, k: string, v: T)
    ensures forall i :: 0 <= i < |Put(r, k, v)| ==> Put(r, k, v)[i] == (k, v) || (i < |r| && Put(r, k, v)[i] == r[i])
  {
    if r != [] && r[0].0 != k {
      PutEntries(r[1..], k, v);
      var r' := Put(r, k, v);
      forall i | 0 < i < |r'| ensures r'[i] == (k, v) || (i < |r| && r'[i] == r[i]) {
        assert r'[i] == Put(r[1..], k, v)[i - 1];
        assert i - 1 < |r[1..]| ==> r[1..][i - 1] == r[i];
      }
    }
  }

  /** `Put` keeps the keys distinct. */
  lemma PutDistinct<T>(r: Rec<T>, k: string, v: T)
    requires DistinctKeys(r)
    ensures DistinctKeys(Put(r, k, v))
  {
    PutAt(r, k, v);
    PutKeys(r, k, v);
    var r' := Put(r, k, v);
    forall i | 0 <= i < |r'| ensures r'[i].0 == Keys(r')[i] {
      KeysAt(r', i);
    }
    forall i | 0 <= i < |r| ensures r[i].0 == Keys(r)[i] {
      KeysAt(r, i);
    }
  }

  /** Writing back the value already stored under a key leaves the object as it was. */
  lemma {:induction false} PutSame<T>(r: Rec<T>, k: string)
    requires k in Keys(r)
    ensures Put(r, k, Get(r, k).value) == r
  {
    if r[0].0 != k {
      PutSame(r[1..], k);
    }
  }
}
