/**
  Decoding inverts the encoding of BEP 3, section "bencoding", and the bytes
  hashed for the info hash are the encoding of the first "info" value to end.
 */
module BencodeRoundTrip {
  import opened Strconv
  import opened Bencode

  /** A nested value with its dict pairs in the order they are written. */
  datatype Doc =
    | IntDoc(n: int)
    | StrDoc(b: Bytes)
    | ListDoc(items: seq<Doc>)
    | DictDoc(pairs: seq<Pair>)

  datatype Pair = Pair(key: Bytes, value: Doc)

  /** The integers fit the source's int64. */
  predicate Encodable(doc: Doc)
    decreases doc, 1
  {
    match doc
    case IntDoc(n) => MIN_INT64 <= n <= MAX_INT64
    case StrDoc(_) => true
    case ListDoc(items) => EncodableItems(items)
    case DictDoc(pairs) => EncodablePairs(pairs)
  }

  predicate EncodableItems(items: seq<Doc>)
    decreases items, 0
  {
    items == [] || (Encodable(items[0]) && EncodableItems(items[1..]))
  }

  predicate EncodablePairs(pairs: seq<Pair>)
    decreases pairs, 0
  {
    pairs == [] || (Encodable(pairs[0].value) && EncodablePairs(pairs[1..]))
  }

  function EncodeStr(b: Bytes): Bytes { FormatNat(|b|) + [COLON] + b }

  function Encode(doc: Doc): (s: Bytes)
    ensures s != [] && s[0] != END
    decreases doc, 1
  {
    match doc
    case IntDoc(n) => [INT] + FormatInt(n) + [END]
    case StrDoc(b) => EncodeStr(b)
    case ListDoc(items) => [LIST] + EncodeItems(items) + [END]
    case DictDoc(pairs) => [DICT] + EncodePairs(pairs) + [END]
  }

  function EncodeItems(items: seq<Doc>): Bytes
    decreases items, 0
  {
    if items == [] then [] else Encode(items[0]) + EncodeItems(items[1..])
  }

  function EncodePairs(pairs: seq<Pair>): Bytes
    decreases pairs, 0
  {
    if pairs == [] then []
    else EncodeStr(pairs[0].key) + Encode(pairs[0].value) + EncodePairs(pairs[1..])
  }

  /** The Go value a document stands for; a repeated key keeps its last value. */
  function Meaning(doc: Doc): Value
    decreases doc, 1
  {
    match doc
    case IntDoc(n) => Int(n)
    case StrDoc(b) => Str(b)
    case ListDoc(items) => List(ItemsMeaning(items, []))
    case DictDoc(pairs) => Dict(PairsMeaning(pairs, map[]))
  }

  function ItemsMeaning(items: seq<Doc>, before: seq<Value>): seq<Value>
    decreases items, 0
  {
    if items == [] then before else ItemsMeaning(items[1..], before + [Meaning(items[0])])
  }

  function PairsMeaning(pairs: seq<Pair>, before: map<Bytes, Value>): map<Bytes, Value>
    decreases pairs, 0
  {
    if pairs == [] then before
    else PairsMeaning(pairs[1..], before[pairs[0].key := Meaning(pairs[0].value)])
  }

  /** The "info" values of a document in the order in which their last byte is read. */
  function InfoValues(doc: Doc): seq<Doc>
    decreases doc, 1
  {
    match doc
    case IntDoc(_) => []
    case StrDoc(_) => []
    case ListDoc(items) => ItemsInfo(items)
    case DictDoc(pairs) => PairsInfo(pairs)
  }

  function ItemsInfo(items: seq<Doc>): seq<Doc>
    decreases items, 0
  {
    if items == [] then [] else InfoValues(items[0]) + ItemsInfo(items[1..])
  }

  function PairsInfo(pairs: seq<Pair>): seq<Doc>
    decreases pairs, 0
  {
    if pairs == [] then []
    else
      InfoValues(pairs[0].value) + (if pairs[0].key == INFO then [pairs[0].value] else []) + PairsInfo(pairs[1..])
  }

  /** What the decoder remembers once it has read past these "info" values. */
  function Captured(info: Option<Bytes>, values: seq<Doc>): Option<Bytes> {
    if info.None? && values != [] then Some(Encode(values[0])) else info
  }

  /** s stands in data at pos. */
  ghost predicate At(data: Input, pos: nat, s: Bytes) {
    && pos + |s| <= |data|
    && forall k :: 0 <= k < |s| ==> data[pos + k] == s[k]
  }

  lemma AtSlice(data: Input, pos: nat, s: Bytes)
    requires At(data, pos, s)
    ensures data[pos..pos + |s|] == s
  {
  }

  lemma AtSplit(data: Input, pos: nat, a: Bytes, b: Bytes)
    requires At(data, pos, a + b)
    ensures At(data, pos, a) && At(data, pos + |a|, b)
  {
    forall k | 0 <= k < |a| ensures data[pos + k] == a[k] {
      assert (a + b)[k] == a[k];
    }
    forall k | 0 <= k < |b| ensures data[pos + |a| + k] == b[k] {
      assert (a + b)[|a| + k] == b[k];
    }
  }

  /** A field up to its delimiter: where the delimiter is found and what is in between. */
  lemma AtDelimited(data: Input, pos: nat, s: Bytes, b: byte)
    requires At(data, pos, s + [b]) && b !in s
    ensures IndexByte(data, pos, b) == pos + |s| < |data|
    ensures data[pos..pos + |s|] == s
  {
    AtSplit(data, pos, s, [b]);
    AtSlice(data, pos, s);
    assert data[pos + |s|] == [b][0];
    forall k | pos <= k < pos + |s| ensures data[k] != b {
      assert data[pos + (k - pos)] == s[k - pos];
    }
  }

  lemma NoEndInInt(n: int)
    ensures END !in FormatInt(n)
  {
  }

  lemma IntRead(data: Input, pos: nat, n: int)
    requires MIN_INT64 <= n <= MAX_INT64
    requires At(data, pos + 1, FormatInt(n) + [END])
    ensures IntAt(data, pos) == Done(n, pos + |FormatInt(n)| + 2, None)
  {
    hide At, IndexByte, ParseInt, FormatInt;
    NoEndInInt(n);
    AtDelimited(data, pos + 1, FormatInt(n), END);
    ParseFormat(n);
  }

  lemma StrRead(data: Input, pos: nat, b: Bytes)
    requires At(data, pos, EncodeStr(b))
    ensures BytesAt(data, pos) == Done(b, pos + |EncodeStr(b)|, None)
    ensures pos < |data| && data[pos] != END && IsDigit(data[pos])
  {
    var n := FormatNat(|b|);
    var start := pos + |n + [COLON]|;
    assert start == pos + |n| + 1;
    AtSplit(data, pos, n + [COLON], b);
    AtSlice(data, start, b);
    AtDelimited(data, pos, n, COLON);
    ParseFormat(|b|);
    AtFirst(data, pos, n + [COLON]);
  }

  lemma AtFirst(data: Input, pos: nat, s: Bytes)
    requires At(data, pos, s) && s != []
    ensures pos < |data| && data[pos] == s[0]
  {
    assert data[pos + 0] == s[0];
  }

  /** Wherever an encoding stands, decoding there reads exactly it and yields its value. */
  lemma {:induction false} DecodeEncoded(data: Input, pos: nat, doc: Doc, info: Option<Bytes>)
    requires Encodable(doc)
    requires At(data, pos, Encode(doc))
    ensures DecodeAt(data, pos, info) == Done(Meaning(doc), pos + |Encode(doc)|, Captured(info, InfoValues(doc)))
    decreases doc, 2
  {
    hide At, IntAt, BytesAt, EncodeStr, EncodeItems, EncodePairs, FormatInt;
    hide ItemsMeaning, PairsMeaning, ItemsInfo, PairsInfo, DecodeItems, DecodePairs;
    AtFirst(data, pos, Encode(doc));
    match doc
    case IntDoc(n) =>
      assert [INT] + FormatInt(n) + [END] == [INT] + (FormatInt(n) + [END]);
      AtSplit(data, pos, [INT], FormatInt(n) + [END]);
      IntRead(data, pos, n);
    case StrDoc(b) => StrRead(data, pos, b);
    case ListDoc(items) => DecodeEncodedList(data, pos, doc, info);
    case DictDoc(pairs) => DecodeEncodedDict(data, pos, doc, info);
  }

  lemma {:induction false} DecodeEncodedList(data: Input, pos: nat, doc: Doc, info: Option<Bytes>)
    requires Encodable(doc) && doc.ListDoc?
    requires At(data, pos, Encode(doc)) && data[pos] == LIST
    ensures DecodeAt(data, pos, info) == Done(Meaning(doc), pos + |Encode(doc)|, Captured(info, InfoValues(doc)))
    decreases doc, 1
  {
    hide At, EncodeItems, ItemsMeaning, ItemsInfo, DecodeItems;
    var body := EncodeItems(doc.items);
    assert [LIST] + body + [END] == [LIST] + (body + [END]);
    AtSplit(data, pos, [LIST], body + [END]);
    DecodeEncodedItems(data, pos + 1, doc.items, info, []);
  }

  lemma {:induction false} DecodeEncodedDict(data: Input, pos: nat, doc: Doc, info: Option<Bytes>)
    requires Encodable(doc) && doc.DictDoc?
    requires At(data, pos, Encode(doc)) && data[pos] == DICT
    ensures DecodeAt(data, pos, info) == Done(Meaning(doc), pos + |Encode(doc)|, Captured(info, InfoValues(doc)))
    decreases doc, 1
  {
    hide At, EncodePairs, PairsMeaning, PairsInfo, DecodePairs;
    var body := EncodePairs(doc.pairs);
    assert [DICT] + body + [END] == [DICT] + (body + [END]);
    AtSplit(data, pos, [DICT], body + [END]);
    DecodeEncodedPairs(data, pos + 1, doc.pairs, info, map[]);
  }

  /** Splits an encoding into its first part and what follows, up to the closing 'e'. */
  lemma AtNext(data: Input, pos: nat, first: Bytes, more: Bytes)
    requires first != [] && first[0] != END
    requires At(data, pos, (first + more) + [END])
    ensures At(data, pos, first) && At(data, pos + |first|, more + [END])
    ensures pos < |data| && data[pos] == first[0]
  {
    assert (first + more) + [END] == first + (more + [END]);
    AtSplit(data, pos, first, more + [END]);
    AtFirst(data, pos, first);
  }

  lemma ItemsEnd(data: Input, pos: nat, info: Option<Bytes>, before: seq<Value>)
    requires At(data, pos, EncodeItems([]) + [END])
    ensures DecodeItems(data, pos, info, before)
      == Done(ItemsMeaning([], before), pos + |EncodeItems([])| + 1, Captured(info, ItemsInfo([])))
  {
    AtFirst(data, pos, EncodeItems([]) + [END]);
  }

  lemma PairsEnd(data: Input, pos: nat, info: Option<Bytes>, before: map<Bytes, Value>)
    requires At(data, pos, EncodePairs([]) + [END])
    ensures DecodePairs(data, pos, info, before)
      == Done(PairsMeaning([], before), pos + |EncodePairs([])| + 1, Captured(info, PairsInfo([])))
  {
    AtFirst(data, pos, EncodePairs([]) + [END]);
  }

  lemma ItemsUnfold(items: seq<Doc>, before: seq<Value>, info: Option<Bytes>)
    requires items != [] && EncodableItems(items)
    ensures Encodable(items[0]) && EncodableItems(items[1..])
    ensures EncodeItems(items) == Encode(items[0]) + EncodeItems(items[1..])
    ensures ItemsMeaning(items, before) == ItemsMeaning(items[1..], before + [Meaning(items[0])])
    ensures Captured(info, ItemsInfo(items)) == Captured(Captured(info, InfoValues(items[0])), ItemsInfo(items[1..]))
  {
  }

  lemma ItemsStep(data: Input, pos: nat, info: Option<Bytes>, before: seq<Value>)
    requires pos < |data| && data[pos] != END && DecodeAt(data, pos, info).Done?
    ensures var item := DecodeAt(data, pos, info);
      DecodeItems(data, pos, info, before) == DecodeItems(data, item.pos, item.info, before + [item.value])
  {
  }

  lemma {:induction false} DecodeEncodedItems(data: Input, pos: nat, items: seq<Doc>, info: Option<Bytes>,
                                              before: seq<Value>)
    requires EncodableItems(items)
    requires At(data, pos, EncodeItems(items) + [END])
    ensures DecodeItems(data, pos, info, before)
      == Done(ItemsMeaning(items, before), pos + |EncodeItems(items)| + 1, Captured(info, ItemsInfo(items)))
    decreases items, 0
  {
    hide *;
    if items == [] {
      ItemsEnd(data, pos, info, before);
    } else {
      var e, more := Encode(items[0]), EncodeItems(items[1..]);
      var seen, grown := Captured(info, InfoValues(items[0])), before + [Meaning(items[0])];
      ItemsUnfold(items, before, info);
      AtNext(data, pos, e, more);
      DecodeEncoded(data, pos, items[0], info);
      ItemsStep(data, pos, info, before);
      DecodeEncodedItems(data, pos + |e|, items[1..], seen, grown);
    }
  }

  lemma PairsUnfold(pairs: seq<Pair>, before: map<Bytes, Value>, info: Option<Bytes>)
    requires pairs != [] && EncodablePairs(pairs)
    ensures Encodable(pairs[0].value) && EncodablePairs(pairs[1..])
    ensures EncodePairs(pairs) == EncodeStr(pairs[0].key) + Encode(pairs[0].value) + EncodePairs(pairs[1..])
    ensures PairsMeaning(pairs, before) == PairsMeaning(pairs[1..], before[pairs[0].key := Meaning(pairs[0].value)])
    ensures Captured(info, PairsInfo(pairs)) == Captured(Captured(info, PairInfo(pairs[0])), PairsInfo(pairs[1..]))
  {
  }

  /** What has been read of the "info" values once a pair's value has been stored. */
  function PairInfo(pair: Pair): seq<Doc> {
    InfoValues(pair.value) + if pair.key == INFO then [pair.value] else []
  }

  lemma PairsStep(data: Input, pos: nat, key: Step<Bytes>, val: Step<Value>, info: Option<Bytes>,
                  before: map<Bytes, Value>)
    requires pos < |data| && data[pos] != END
    requires key == BytesAt(data, pos) && key.Done?
    requires val == DecodeAt(data, key.pos, info) && val.Done?
    ensures DecodePairs(data, pos, info, before)
      == DecodePairs(data, val.pos, Remember(val.info, key.value, data[key.pos..val.pos]),
        before[key.value := val.value])
  {
  }

  lemma RememberCaptured(info: Option<Bytes>, pair: Pair)
    ensures Remember(Captured(info, InfoValues(pair.value)), pair.key, Encode(pair.value)) ==
      Captured(info, PairInfo(pair))
  {
  }

  lemma {:induction false} DecodeEncodedPair(
    data: Input, pos: nat, pair: Pair, at: nat, rest: nat, info: Option<Bytes>, before: map<Bytes, Value>)
    requires Encodable(pair.value)
    requires pos < |data| && data[pos] != END
    requires BytesAt(data, pos) == Done(pair.key, at, None)
    requires At(data, at, Encode(pair.value)) && rest == at + |Encode(pair.value)|
    ensures DecodePairs(data, pos, info, before)
      == DecodePairs(data, rest, Captured(info, PairInfo(pair)), before[pair.key := Meaning(pair.value)])
    decreases pair, 3
  {
    hide *;
    DecodeEncoded(data, at, pair.value, info);
    AtSlice(data, at, Encode(pair.value));
    PairsStep(data, pos, BytesAt(data, pos), DecodeAt(data, at, info), info, before);
    RememberCaptured(info, pair);
  }

  /** The same for a dict pair: its key, its value, and what follows. */
  lemma AtNextPair(data: Input, pos: nat, key: Bytes, value: Bytes, more: Bytes)
    requires At(data, pos, key + value + more + [END])
    ensures At(data, pos, key) && At(data, pos + |key|, value) && At(data, pos + |key| + |value|, more + [END])
  {
    hide *;
    assert key + value + more + [END] == key + (value + (more + [END]));
    AtSplit(data, pos, key, value + (more + [END]));
    AtSplit(data, pos + |key|, value, more + [END]);
  }

  lemma {:induction false} DecodeEncodedPairs(
    data: Input, pos: nat, pairs: seq<Pair>, info: Option<Bytes>, before: map<Bytes, Value>)
    requires EncodablePairs(pairs)
    requires At(data, pos, EncodePairs(pairs) + [END])
    ensures DecodePairs(data, pos, info, before)
      == Done(PairsMeaning(pairs, before), pos + |EncodePairs(pairs)| + 1, Captured(info, PairsInfo(pairs)))
    decreases pairs, 0
  {
    hide *;
    if pairs == [] {
      PairsEnd(data, pos, info, before);
    } else {
      var k, e, more := EncodeStr(pairs[0].key), Encode(pairs[0].value), EncodePairs(pairs[1..]);
      var rest := pos + |k| + |e|;
      var seen, grown := Captured(info, PairInfo(pairs[0])), before[pairs[0].key := Meaning(pairs[0].value)];
      PairsUnfold(pairs, before, info);
      AtNextPair(data, pos, k, e, more);
      StrRead(data, pos, pairs[0].key);
      DecodeEncodedPair(data, pos, pairs[0], pos + |k|, rest, info, before);
      DecodeEncodedPairs(data, rest, pairs[1..], seen, grown);
    }
  }

  /** Decode(Encode(doc) + anything) is doc's value, whatever follows. */
  lemma RoundTrip(doc: Doc, rest: Bytes)
    requires Encodable(doc) && |Encode(doc) + rest| <= MAX_INT64
    ensures DecodeAt(Encode(doc) + rest, 0, None)
      == Done(Meaning(doc), |Encode(doc)|, Captured(None, InfoValues(doc)))
  {
    DecodeEncoded(Encode(doc) + rest, 0, doc, None);
  }

  /** No encoding is a proper prefix of another: equal beginnings mean equal values and lengths. */
  lemma EncodePrefixFree(a: Doc, b: Doc, rest: Bytes)
    requires Encodable(a) && Encodable(b) && |Encode(a) + rest| <= MAX_INT64
    requires Encode(a) + rest == Encode(b)
    ensures rest == [] && Meaning(a) == Meaning(b)
  {
    RoundTrip(a, rest);
    RoundTrip(b, []);
    assert Encode(b) + [] == Encode(b);
  }

  // --- The info hash ---

  lemma {:induction false} PairsInfoAppend(a: seq<Pair>, b: seq<Pair>)
    ensures PairsInfo(a + b) == PairsInfo(a) + PairsInfo(b)
  {
    if a == [] {
      assert a + b == b;
    } else {
      assert (a + b)[1..] == a[1..] + b;
      PairsInfoAppend(a[1..], b);
    }
  }

  lemma {:induction false} PairsMeaningAppend(a: seq<Pair>, b: seq<Pair>, before: map<Bytes, Value>)
    ensures PairsMeaning(a + b, before) == PairsMeaning(b, PairsMeaning(a, before))
  {
    if a == [] {
      assert a + b == b;
    } else {
      assert (a + b)[1..] == a[1..] + b;
      PairsMeaningAppend(a[1..], b, before[a[0].key := Meaning(a[0].value)]);
    }
  }

  lemma {:induction false} PairsMeaningKeeps(pairs: seq<Pair>, before: map<Bytes, Value>, key: Bytes)
    requires key in before && forall i :: 0 <= i < |pairs| ==> pairs[i].key != key
    ensures key in PairsMeaning(pairs, before) && PairsMeaning(pairs, before)[key] == before[key]
  {
    if pairs != [] {
      PairsMeaningKeeps(pairs[1..], before[pairs[0].key := Meaning(pairs[0].value)], key);
    }
  }

  /** A document is longer than every "info" value inside it. */
  lemma {:induction false} InfoValuesShorter(doc: Doc)
    ensures forall d :: d in InfoValues(doc) ==> |Encode(d)| < |Encode(doc)|
    decreases doc, 1
  {
    match doc
    case IntDoc(_) =>
    case StrDoc(_) =>
    case ListDoc(items) => ItemsInfoShorter(items);
    case DictDoc(pairs) => PairsInfoShorter(pairs);
  }

  lemma {:induction false} ItemsInfoShorter(items: seq<Doc>)
    ensures forall d :: d in ItemsInfo(items) ==> |Encode(d)| <= |EncodeItems(items)|
    decreases items, 0
  {
    if items != [] {
      InfoValuesShorter(items[0]);
      ItemsInfoShorter(items[1..]);
    }
  }

  lemma {:induction false} PairsInfoShorter(pairs: seq<Pair>)
    ensures forall d :: d in PairsInfo(pairs) ==> |Encode(d)| <= |EncodePairs(pairs)|
    decreases pairs, 0
  {
    if pairs != [] {
      InfoValuesShorter(pairs[0].value);
      PairsInfoShorter(pairs[1..]);
    }
  }

  /** A torrent file whose top-level dict has one "info" key, holding a dict. */
  ghost predicate IsTorrent(before: seq<Pair>, info: Doc, after: seq<Pair>) {
    && Encodable(DictDoc(before + [Pair(INFO, info)] + after)) && info.DictDoc?
    && (forall i :: 0 <= i < |before| ==> before[i].key != INFO)
    && (forall i :: 0 <= i < |after| ==> after[i].key != INFO)
  }

  /** The hashed bytes are the encoding of the "info" value that ends first, wherever it is nested. */
  lemma TorrentHash(before: seq<Pair>, info: Doc, after: seq<Pair>, data: Input, rest: Bytes)
    requires IsTorrent(before, info, after)
    requires data == Encode(DictDoc(before + [Pair(INFO, info)] + after)) + rest
    ensures TorrentOf(data) == Hashed(Encode((PairsInfo(before) + InfoValues(info) + [info])[0]))
  {
    var mid := [Pair(INFO, info)];
    var pairs := before + mid + after;
    var body := EncodePairs(pairs) + [END];
    assert Encode(DictDoc(pairs)) == [DICT] + body;
    AtSplit(data, 0, [DICT], body);
    DecodeEncodedPairs(data, 1, pairs, None, map[]);
    var m := PairsMeaning(before, map[]);
    PairsMeaningAppend(before + mid, after, map[]);
    PairsMeaningAppend(before, mid, map[]);
    assert PairsMeaning(mid, m) == m[INFO := Meaning(info)] by { assert mid[1..] == []; }
    PairsMeaningKeeps(after, m[INFO := Meaning(info)], INFO);
    PairsInfoAppend(before + mid, after);
    PairsInfoAppend(before, mid);
    assert PairsInfo(mid) == InfoValues(info) + [info] by { assert mid[1..] == []; }
  }

  /**
    With no other "info" key before the top-level one, the info hash is taken over
    exactly that value's encoding if and only if no "info" key is nested inside it.
   */
  lemma TorrentHashIsInfoDict(before: seq<Pair>, info: Doc, after: seq<Pair>, data: Input, rest: Bytes)
    requires IsTorrent(before, info, after) && PairsInfo(before) == []
    requires data == Encode(DictDoc(before + [Pair(INFO, info)] + after)) + rest
    ensures TorrentOf(data) == Hashed(Encode(info)) <==> InfoValues(info) == []
  {
    TorrentHash(before, info, after, data, rest);
    InfoValuesShorter(info);
    if InfoValues(info) != [] {
      assert (PairsInfo(before) + InfoValues(info) + [info])[0] == InfoValues(info)[0];
      assert InfoValues(info)[0] in InfoValues(info);
    }
  }
}
