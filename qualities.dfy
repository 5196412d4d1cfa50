/**
 * `get_available_qualities`: the quality catalogue of one page, mapping each
 * rank in `accept_quality` to the matching `accept_description`, cleaned of
 * anything up to the first `:`.
 */
module Qualities {
  import opened Text

  /**
   * Lines 217-221: the text after the first `:`, stripped, when there is a
   * colon; otherwise the whole description, stripped.
   */
  function ParseDescription(desc: string): (r: string)
    ensures Trimmed(r)
    ensures |r| <= |desc|
    ensures ':' in desc ==> |r| < |desc|
  {
    if ':' in desc then Strip(desc[FirstIndex(desc, ':') + 1..]) else Strip(desc)
  }

  /**
   * What the cleaning keeps: a description without a colon only loses its
   * surrounding whitespace; a description `prefix:text` whose prefix has no
   * colon gives the stripped text, whatever colons the text itself holds.
   */
  lemma ParseDescriptionSpec(desc: string)
    ensures ':' !in desc ==> ParseDescription(desc) == Strip(desc)
    ensures forall prefix, text :: ':' !in prefix && desc == prefix + ":" + text ==>
              ParseDescription(desc) == Strip(text)
  {
    forall prefix, text | ':' !in prefix && desc == prefix + ":" + text
      ensures ParseDescription(desc) == Strip(text)
    {
      ParseLabelled(prefix, text);
    }
  }

  lemma ParseLabelled(prefix: string, text: string)
    requires ':' !in prefix
    ensures ParseDescription(prefix + ":" + text) == Strip(text)
  {
    var d := prefix + ":" + text;
    assert d[|prefix|] == ':';
    var i := FirstIndex(d, ':');
    assert i == |prefix| by {
      assert forall k :: 0 <= k < |prefix| ==> d[k] == prefix[k];
    }
    assert d[i + 1..] == text;
  }

  /**
   * The play-URL reply asked for the catalogue. `Failed` is any exception in
   * the `try` block (transport, HTTP status, JSON, a missing key).
   */
  datatype QualityReply =
    | Failed
    | Reply(code: int, acceptQuality: seq<int>, acceptDescription: seq<string>)

  /**
   * The position of the last of the first `n` ranks equal to `k`, or -1 when
   * none of them is.
   */
  function LastPos(qs: seq<int>, n: nat, k: int): (r: int)
    requires n <= |qs|
    ensures -1 <= r < n
    ensures r >= 0 ==> qs[r] == k && forall j :: r < j < n ==> qs[j] != k
    ensures r == -1 ==> forall j :: 0 <= j < n ==> qs[j] != k
  {
    if n == 0 then -1 else if qs[n - 1] == k then n - 1 else LastPos(qs, n - 1, k)
  }

  /**
   * `q` is the dict the `zip` loop builds from the first `n` pairs: its keys
   * are exactly the ranks among them, and each key maps to the parsed
   * description of the LAST pair carrying that rank (a later pair overwrites
   * an earlier one).
   */
  ghost predicate ZipTable(q: map<int, string>, qs: seq<int>, ds: seq<string>, n: nat)
    requires n <= |qs| && n <= |ds|
  {
    && (forall k :: k in q <==> LastPos(qs, n, k) >= 0)
    && (forall k :: k in q ==> q[k] == ParseDescription(ds[LastPos(qs, n, k)]))
  }

  function Min(a: nat, b: nat): nat { if a < b then a else b }

  /**
   * `get_available_qualities`: the empty dict unless the reply has code 0;
   * then the table of the first `min(len(accept_quality),
   * len(accept_description))` pairs, as `zip` truncates to the shorter list.
   */
  method GetAvailableQualities(reply: QualityReply) returns (q: map<int, string>)
    ensures reply.Failed? || reply.code != 0 ==> q == map[]
    ensures reply.Reply? && reply.code == 0 ==>
              ZipTable(q, reply.acceptQuality, reply.acceptDescription,
                       Min(|reply.acceptQuality|, |reply.acceptDescription|))
  {
    q := map[];
    if reply.Failed? || reply.code != 0 {
      return;
    }
    var qs, ds := reply.acceptQuality, reply.acceptDescription;
    var n := Min(|qs|, |ds|);
    for i := 0 to n
      invariant ZipTable(q, qs, ds, i)
    {
      ZipTableStep(q, qs, ds, i);
      q := q[qs[i] := ParseDescription(ds[i])];
    }
  }

  /** One turn of the `for qn, desc in zip(...)` loop extends the table by one pair. */
  lemma ZipTableStep(q: map<int, string>, qs: seq<int>, ds: seq<string>, i: nat)
    requires i < |qs| && i < |ds|
    requires ZipTable(q, qs, ds, i)
    ensures ZipTable(q[qs[i] := ParseDescription(ds[i])], qs, ds, i + 1)
  {
    assert forall k :: LastPos(qs, i + 1, k) == if qs[i] == k then i else LastPos(qs, i, k);
  }

  /** The keys of the table are the ranks of the zipped pairs. */
  lemma ZipTableKeys(q: map<int, string>, qs: seq<int>, ds: seq<string>, n: nat)
    requires n <= |qs| && n <= |ds|
    requires ZipTable(q, qs, ds, n)
    ensures q.Keys == set i | 0 <= i < n :: qs[i]
  {
    forall k | k in q ensures k in set i | 0 <= i < n :: qs[i] {
      assert qs[LastPos(qs, n, k)] == k;
    }
  }
}
