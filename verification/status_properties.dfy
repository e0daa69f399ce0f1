/** Properties of the status fold: how records combine, which ones matter,
    and when their order does not. */
module StatusProperties {
  import opened Wrappers
  import opened ServiceStatus

  /** Folding a concatenation is folding the second part from where the first
      part left off. */
  lemma {:induction false} FoldAppend(s: Status, a: seq<RawStatus>, b: seq<RawStatus>)
    ensures Fold(s, a + b) == Fold(Fold(s, a), b)
    decreases |a|
  {
    if |a| == 0 {
      assert a + b == b;
    } else {
      assert (a + b)[0] == a[0];
      assert (a + b)[1..] == a[1..] + b;
      FoldAppend(Apply(s, a[0]), a[1..], b);
    }
  }

  /** A decoded body yields a snapshot whose field for a key equals the status
      of the key's last occurrence; a repeated key is overwritten. */
  lemma ParseStatusLastOccurrenceWins(body: Bytes, unmarshal: Bytes -> Decoded, c: Channel, i: int)
    requires unmarshal(body).Records?
    requires LastAt(unmarshal(body).records, i, KeyOf(c))
    ensures ParseStatusFromBody(body, unmarshal).Success?
    ensures Get(ParseStatusFromBody(body, unmarshal).value, c) == unmarshal(body).records[i].status
  {
  }

  /** A channel whose key never occurs in the decoded body stays "". */
  lemma ParseStatusAbsentKeyIsEmpty(body: Bytes, unmarshal: Bytes -> Decoded, c: Channel)
    requires unmarshal(body).Records?
    requires forall i :: 0 <= i < |unmarshal(body).records| ==> unmarshal(body).records[i].key != KeyOf(c)
    ensures ParseStatusFromBody(body, unmarshal).Success?
    ensures Get(ParseStatusFromBody(body, unmarshal).value, c) == ""
  {
  }

  /** A record whose key is none of the eight can be deleted from anywhere in
      the input without changing the outcome. */
  lemma FoldIgnoresUnknownKey(s: Status, p: seq<RawStatus>, r: RawStatus, q: seq<RawStatus>)
    requires ChannelOf(r.key).None?
    ensures Fold(s, p + [r] + q) == Fold(s, p + q)
  {
    FoldAppend(s, p + [r], q);
    FoldAppend(s, p, [r]);
    FoldAppend(s, p, q);
    var mid := Fold(s, p);
    assert [r][1..] == [];
    assert Fold(mid, [r]) == Fold(Apply(mid, r), []);
  }

  /** Two records with different keys can be applied in either order. */
  lemma ApplyCommutes(s: Status, a: RawStatus, b: RawStatus)
    requires a.key != b.key
    ensures Apply(Apply(s, a), b) == Apply(Apply(s, b), a)
  {
    StatusExtensionality(Apply(Apply(s, a), b), Apply(Apply(s, b), a));
  }

  /** Swapping two neighbouring records with different keys does not change the
      outcome. */
  lemma FoldSwapAdjacent(s: Status, p: seq<RawStatus>, a: RawStatus, b: RawStatus, q: seq<RawStatus>)
    requires a.key != b.key
    ensures Fold(s, p + [a, b] + q) == Fold(s, p + [b, a] + q)
  {
    FoldAppend(s, p, [a, b] + q);
    FoldAppend(s, p, [b, a] + q);
    assert p + [a, b] + q == p + ([a, b] + q);
    assert p + [b, a] + q == p + ([b, a] + q);
    var mid := Fold(s, p);
    assert ([a, b] + q)[1..] == [b] + q && ([b] + q)[1..] == q;
    assert ([b, a] + q)[1..] == [a] + q && ([a] + q)[1..] == q;
    assert Fold(mid, [a, b] + q) == Fold(Apply(Apply(mid, a), b), q);
    assert Fold(mid, [b, a] + q) == Fold(Apply(Apply(mid, b), a), q);
    ApplyCommutes(mid, a, b);
  }

  /** A record can be moved forward past records that all carry other keys. */
  lemma {:induction false} FoldMoveToFront(s: Status, p: seq<RawStatus>, x: RawStatus, q: seq<RawStatus>)
    requires forall k :: 0 <= k < |p| ==> p[k].key != x.key
    ensures Fold(s, p + [x] + q) == Fold(s, [x] + p + q)
    decreases |p|
  {
    if |p| > 0 {
      var rest := p[1..];
      // p + [x] + q  ==  [p0] + (rest + [x] + q)  and  [x] + p + q  ==  [] + [x, p0] + (rest + q)
      assert p + [x] + q == [p[0]] + (rest + [x] + q);
      FoldMoveToFront(Apply(s, p[0]), rest, x, q);
      assert ([p[0]] + (rest + [x] + q))[1..] == rest + [x] + q;
      assert Fold(s, p + [x] + q) == Fold(Apply(s, p[0]), [x] + rest + q);
      assert [x] + rest + q == [x] + (rest + q);
      assert Fold(s, p + [x] + q) == Fold(s, [p[0]] + [x] + (rest + q));
      FoldSwapAdjacent(s, [], p[0], x, rest + q);
      assert [] + [p[0], x] + (rest + q) == [p[0]] + [x] + (rest + q);
      assert [] + [x, p[0]] + (rest + q) == [x] + p + q;
    }
  }

  /** No two records share a key. */
  predicate DistinctKeys(records: seq<RawStatus>) {
    forall i, j :: 0 <= i < j < |records| ==> records[i].key != records[j].key
  }

  /** Taking one element out of a sequence takes it out of its multiset. */
  lemma MultisetRemoveAt(xs: seq<RawStatus>, j: int)
    requires 0 <= j < |xs|
    ensures xs == xs[..j] + [xs[j]] + xs[j + 1..]
    ensures multiset(xs[..j] + xs[j + 1..]) == multiset(xs) - multiset{xs[j]}
  {
    assert xs == xs[..j] + [xs[j]] + xs[j + 1..];
  }

  /** Dropping the first record keeps the keys distinct. */
  lemma DistinctKeysTail(records: seq<RawStatus>)
    requires |records| > 0 && DistinctKeys(records)
    ensures DistinctKeys(records[1..])
  {
    var tail := records[1..];
    forall i, i' | 0 <= i < i' < |tail|
      ensures tail[i].key != tail[i'].key
    {
      assert tail[i] == records[i + 1] && tail[i'] == records[i' + 1];
    }
  }

  /** Every record of `before` is one of `records[1..]`, so none of them shares
      the first record's key. */
  lemma EarlierKeysDiffer(records: seq<RawStatus>, before: seq<RawStatus>, after: seq<RawStatus>)
    requires |records| > 0 && DistinctKeys(records)
    requires multiset(records[1..]) == multiset(before + after)
    ensures forall k :: 0 <= k < |before| ==> before[k].key != records[0].key
  {
    var tail := records[1..];
    forall k | 0 <= k < |before|
      ensures before[k].key != records[0].key
    {
      assert (before + after)[k] == before[k];
      assert before[k] in multiset(tail);
      var m :| 0 <= m < |tail| && tail[m] == before[k];
      assert records[m + 1] == tail[m];
    }
  }

  /** The step of the permutation proof: the head record, found somewhere in
      the other sequence, can be brought to the front there as well. */
  lemma FoldHeadFound(s: Status, x: RawStatus, tail: seq<RawStatus>, before: seq<RawStatus>, after: seq<RawStatus>)
    requires forall k :: 0 <= k < |before| ==> before[k].key != x.key
    requires Fold(Apply(s, x), tail) == Fold(Apply(s, x), before + after)
    ensures Fold(s, [x] + tail) == Fold(s, before + [x] + after)
  {
    calc {
      Fold(s, [x] + tail);
      { assert ([x] + tail)[1..] == tail; }
      Fold(Apply(s, x), tail);
      Fold(Apply(s, x), before + after);
      { assert ([x] + (before + after))[1..] == before + after; }
      Fold(s, [x] + (before + after));
      { assert [x] + before + after == [x] + (before + after); }
      Fold(s, [x] + before + after);
      { FoldMoveToFront(s, before, x, after); }
      Fold(s, before + [x] + after);
    }
  }

  /** Finds the first record of `records` in `other` and splits `other`
      around it. */
  lemma SplitAtHead(records: seq<RawStatus>, other: seq<RawStatus>) returns (before: seq<RawStatus>, after: seq<RawStatus>)
    requires |records| > 0 && DistinctKeys(records)
    requires multiset(records) == multiset(other)
    ensures other == before + [records[0]] + after
    ensures multiset(records[1..]) == multiset(before + after)
    ensures forall k :: 0 <= k < |before| ==> before[k].key != records[0].key
  {
    var x := records[0];
    assert x in multiset(other);
    var j :| 0 <= j < |other| && other[j] == x;
    before, after := other[..j], other[j + 1..];
    MultisetRemoveAt(records, 0);
    MultisetRemoveAt(other, j);
    assert records[..0] + records[1..] == records[1..];
    EarlierKeysDiffer(records, before, after);
  }

  /** When no key repeats, the order of the records does not matter: any
      rearrangement of them yields the same snapshot. */
  lemma {:induction false} FoldPermutationOfDistinctKeys(s: Status, records: seq<RawStatus>, other: seq<RawStatus>)
    requires DistinctKeys(records)
    requires multiset(records) == multiset(other)
    ensures Fold(s, records) == Fold(s, other)
    decreases |records|
  {
    if |records| == 0 {
      assert |other| == |multiset(other)| == 0;
    } else {
      var x := records[0];
      var before, after := SplitAtHead(records, other);
      DistinctKeysTail(records);
      FoldPermutationOfDistinctKeys(Apply(s, x), records[1..], before + after);
      FoldHeadFound(s, x, records[1..], before, after);
      assert records == [x] + records[1..];
    }
  }

  /** Whatever string the service reports for a known key is stored as it is;
      values other than green, yellow and red are not rejected. */
  lemma ParseStatusCopiesStateVerbatim(body: Bytes, unmarshal: Bytes -> Decoded, c: Channel, v: string)
    requires unmarshal(body) == Records([RawStatus(KeyOf(c), v)])
    ensures ParseStatusFromBody(body, unmarshal).Success?
    ensures Get(ParseStatusFromBody(body, unmarshal).value, c) == v
    ensures forall d: Channel :: d != c ==> Get(ParseStatusFromBody(body, unmarshal).value, d) == ""
  {
    var records := unmarshal(body).records;
    assert LastAt(records, 0, KeyOf(c));
  }

  /** Key matching is case-sensitive: a differently capitalised key is unknown. */
  lemma KeyMatchIsCaseSensitive(s: Status, v: string)
    ensures ChannelOf("Minecraft.net") == None
    ensures Apply(s, RawStatus("Minecraft.net", v)) == s
  {
  }

  /** A website report and an unknown key: the website field is set, the
      unknown key is dropped, and the other fields stay empty. */
  lemma ParseStatusExample(body: Bytes, unmarshal: Bytes -> Decoded)
    requires unmarshal(body) == Records([RawStatus("minecraft.net", Red), RawStatus("bogus.example", Green)])
    ensures ParseStatusFromBody(body, unmarshal) == Success(Empty.(minecraftWebsite := Red))
  {
    var records := unmarshal(body).records;
    assert LastAt(records, 0, "minecraft.net");
    StatusExtensionality(ParseStatusFromBody(body, unmarshal).value, Empty.(minecraftWebsite := Red));
  }
}
