/** The validator's error store: a PHP array from field key to rendered
    message. PHP arrays remember insertion order, and assigning to a key
    that is already there replaces its value in place, so the store is a
    sequence of (key, message) entries with distinct keys. */
module ErrorSink {
  import opened Wrappers

  /** One stored message: (field key, rendered message). */
  type Entry = (string, string)

  /** The keys, in insertion order. */
  function Keys(es: seq<Entry>): (ks: seq<string>)
    ensures |ks| == |es|
    ensures forall i :: 0 <= i < |es| ==> ks[i] == es[i].0
  {
    if es == [] then [] else [es[0].0] + Keys(es[1..])
  }

  /** The messages, in insertion order (what `foreach` visits). */
  function Messages(es: seq<Entry>): (ms: seq<string>)
    ensures |ms| == |es|
    ensures forall i :: 0 <= i < |es| ==> ms[i] == es[i].1
  {
    if es == [] then [] else [es[0].1] + Messages(es[1..])
  }

  /** No key is stored twice: the store is a map. */
  predicate UniqueKeys(es: seq<Entry>) {
    forall i, j :: 0 <= i < j < |es| ==> es[i].0 != es[j].0
  }

  /** `$errors[$k]` when it is set. */
  function Lookup(es: seq<Entry>, k: string): (r: Option<string>)
    ensures r.Some? <==> k in Keys(es)
    ensures r.Some? ==> (k, r.value) in es
  {
    if es == [] then None
    else if es[0].0 == k then Some(es[0].1)
    else Lookup(es[1..], k)
  }

  /** `$errors[$k] = $v`: replace the value of an existing key where it
      stands, or append a new key at the end. */
  function Put(es: seq<Entry>, k: string, v: string): (r: seq<Entry>)
    ensures (k, v) in r
  {
    if es == [] then [(k, v)]
    else if es[0].0 == k then [(k, v)] + es[1..]
    else [es[0]] + Put(es[1..], k, v)
  }

  /** Assignment changes only the entry of `k`, keeps every position, and
      appends `k` last when it was not yet stored. */
  lemma {:induction false} PutAt(es: seq<Entry>, k: string, v: string)
    requires UniqueKeys(es)
    ensures k in Keys(es) ==> |Put(es, k, v)| == |es|
    ensures k !in Keys(es) ==> |Put(es, k, v)| == |es| + 1 && Put(es, k, v)[|es|] == (k, v)
    ensures forall i :: 0 <= i < |es| ==> Put(es, k, v)[i] == if es[i].0 == k then (k, v) else es[i]
  {
    if es != [] {
      var r := Put(es, k, v);
      if es[0].0 == k {
        forall i | 1 <= i < |es| ensures es[i].0 != k {
          assert es[0].0 != es[i].0;
        }
      } else {
        var tail := Put(es[1..], k, v);
        PutAt(es[1..], k, v);
        assert r == [es[0]] + tail;
        assert k in Keys(es) <==> k in Keys(es[1..]);
        forall i | 1 <= i < |es| ensures r[i] == if es[i].0 == k then (k, v) else es[i] {
          assert r[i] == tail[i - 1] && es[1..][i - 1] == es[i];
        }
      }
    }
  }

  lemma PutKeepsUnique(es: seq<Entry>, k: string, v: string)
    requires UniqueKeys(es)
    ensures UniqueKeys(Put(es, k, v))
  {
    var r := Put(es, k, v);
    PutAt(es, k, v);
    forall i, j | 0 <= i < j < |r| ensures r[i].0 != r[j].0 {
      if j == |es| {
        assert Keys(es)[i] == es[i].0;
      }
    }
  }

  /** After `$errors[$k] = $v`, key `k` holds `v` and every other key holds
      what it held before. */
  lemma {:induction false} LookupPut(es: seq<Entry>, k: string, v: string, j: string)
    ensures Lookup(Put(es, k, v), j) == if j == k then Some(v) else Lookup(es, j)
  {
    if es != [] && es[0].0 != k {
      LookupPut(es[1..], k, v, j);
    }
  }

  /** Every stored entry is what a lookup of its key returns. */
  lemma LookupAll(es: seq<Entry>)
    requires UniqueKeys(es)
    ensures forall i :: 0 <= i < |es| ==> Lookup(es, es[i].0) == Some(es[i].1)
  {
    forall i | 0 <= i < |es| ensures Lookup(es, es[i].0) == Some(es[i].1) {
      LookupAt(es, i);
    }
  }

  lemma {:induction false} LookupAt(es: seq<Entry>, i: nat)
    requires UniqueKeys(es) && i < |es|
    ensures Lookup(es, es[i].0) == Some(es[i].1)
  {
    if i > 0 {
      assert es[0].0 != es[i].0;
      assert es[1..][i - 1] == es[i];
      LookupAt(es[1..], i - 1);
    }
  }

  // ---------------------------------------------------------------------
  // the "<br>"-joined rendering of the messages
  // ---------------------------------------------------------------------

  const Br: string := "<br>"

  /** Every message followed by `<br>`, in order. */
  function JoinBr(ms: seq<string>): (r: string)
    ensures |r| >= 4 * |ms|
    ensures r == "" <==> ms == []
  {
    if ms == [] then "" else ms[0] + Br + JoinBr(ms[1..])
  }

  lemma {:induction false} JoinBrSnoc(ms: seq<string>, m: string)
    ensures JoinBr(ms + [m]) == JoinBr(ms) + m + Br
  {
    if ms == [] {
      assert ms + [m] == [m];
    } else {
      assert (ms + [m])[1..] == ms[1..] + [m];
      JoinBrSnoc(ms[1..], m);
    }
  }

  predicate BrAt(s: string, i: int) {
    0 <= i && i + 4 <= |s| && s[i..i + 4] == Br
  }

  predicate ContainsBr(s: string) {
    exists i :: 0 <= i < |s| && BrAt(s, i)
  }

  /** The position of the first `<br>` in `s`. */
  function FirstBr(s: string): (r: Option<nat>)
    ensures r.Some? ==> r.value + 4 <= |s|
    decreases |s|
  {
    if |s| < 4 then None
    else if s[..4] == Br then Some(0)
    else match FirstBr(s[1..])
      case None => None
      case Some(i) => Some(i + 1)
  }

  /** Reads a string back as a list of `<br>`-terminated messages. */
  function SplitBr(s: string): Option<seq<string>>
    decreases |s|
  {
    if s == [] then Some([])
    else match FirstBr(s)
      case None => None
      case Some(i) =>
        match SplitBr(s[i + 4..])
        case None => None
        case Some(rest) => Some([s[..i]] + rest)
  }

  /** The `<br>` that follows a message free of `<br>` is the first one:
      `<br>` cannot overlap itself, so it cannot start inside the message. */
  lemma {:induction false} FirstBrAfter(m: string, rest: string)
    requires !ContainsBr(m)
    ensures FirstBr(m + Br + rest) == Some(|m|)
    decreases |m|
  {
    var s := m + Br + rest;
    if m == [] {
      assert s[..4] == Br;
    } else {
      if |m| >= 4 {
        assert m[0..4] == s[..4] && !BrAt(m, 0);
      } else {
        assert s[..4][|m|] == s[|m|] == '<' != Br[|m|];
      }
      assert s[..4] != Br;
      forall i | BrAt(m[1..], i) ensures BrAt(m, i + 1) {
        assert m[1..][i..i + 4] == m[i + 1..i + 5];
      }
      assert s[1..] == m[1..] + Br + rest;
      FirstBrAfter(m[1..], rest);
    }
  }

  /** Joining with `<br>` loses nothing when no message contains `<br>`. */
  lemma {:induction false} SplitJoinBr(ms: seq<string>)
    requires forall m :: m in ms ==> !ContainsBr(m)
    ensures SplitBr(JoinBr(ms)) == Some(ms)
  {
    if ms != [] {
      var s := JoinBr(ms);
      assert s == ms[0] + Br + JoinBr(ms[1..]);
      FirstBrAfter(ms[0], JoinBr(ms[1..]));
      assert s[|ms[0]| + 4..] == JoinBr(ms[1..]);
      assert s[..|ms[0]|] == ms[0];
      SplitJoinBr(ms[1..]);
      assert ms == [ms[0]] + ms[1..];
    }
  }
}
