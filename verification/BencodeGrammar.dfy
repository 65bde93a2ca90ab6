/** Whatever the decoder reads without an error is a text of the grammar of BEP 3, section "bencoding". */
module BencodeGrammar {
  import opened Strconv
  import opened Bencode
  import opened BencodeRoundTrip

  /** A text, with its numbers as they are written: strconv reads signs and leading zeros too. */
  datatype Text =
    | IntText(digits: Bytes)
    | StrText(length: Bytes, b: Bytes)
    | ListText(items: seq<Text>)
    | DictText(pairs: seq<PairText>)

  datatype PairText = PairText(length: Bytes, key: Bytes, value: Text)

  /** The number in front of a string is its length. */
  predicate Measures(length: Bytes, b: Bytes) { COLON !in length && ParseInt(length) == Some(|b|) }

  predicate Legal(t: Text)
    decreases t, 1
  {
    match t
    case IntText(digits) => END !in digits && ParseInt(digits).Some?
    case StrText(length, b) => length != [] && IsDigit(length[0]) && Measures(length, b)
    case ListText(items) => LegalItems(items)
    case DictText(pairs) => LegalPairs(pairs)
  }

  predicate LegalItems(items: seq<Text>)
    decreases items, 0
  {
    items == [] || (Legal(items[0]) && LegalItems(items[1..]))
  }

  predicate LegalPairs(pairs: seq<PairText>)
    decreases pairs, 0
  {
    pairs == [] || (Measures(pairs[0].length, pairs[0].key) && Legal(pairs[0].value) && LegalPairs(pairs[1..]))
  }

  function Write(t: Text): Bytes
    decreases t, 1
  {
    match t
    case IntText(digits) => [INT] + digits + [END]
    case StrText(length, b) => length + [COLON] + b
    case ListText(items) => [LIST] + WriteItems(items) + [END]
    case DictText(pairs) => [DICT] + WritePairs(pairs) + [END]
  }

  function WriteItems(items: seq<Text>): Bytes
    decreases items, 0
  {
    if items == [] then [] else Write(items[0]) + WriteItems(items[1..])
  }

  function WritePairs(pairs: seq<PairText>): Bytes
    decreases pairs, 0
  {
    if pairs == [] then []
    else pairs[0].length + [COLON] + pairs[0].key + Write(pairs[0].value) + WritePairs(pairs[1..])
  }

  function Value(t: Text): Bencode.Value
    requires Legal(t)
    decreases t, 1
  {
    match t
    case IntText(digits) => Int(ParseInt(digits).value)
    case StrText(_, b) => Str(b)
    case ListText(items) => List(ItemValues(items))
    case DictText(pairs) => Dict(PairValues(pairs, map[]))
  }

  function ItemValues(items: seq<Text>): seq<Bencode.Value>
    requires LegalItems(items)
    decreases items, 0
  {
    if items == [] then [] else [Value(items[0])] + ItemValues(items[1..])
  }

  function PairValues(pairs: seq<PairText>, before: map<Bytes, Bencode.Value>): map<Bytes, Bencode.Value>
    requires LegalPairs(pairs)
    decreases pairs, 0
  {
    if pairs == [] then before else PairValues(pairs[1..], before[pairs[0].key := Value(pairs[0].value)])
  }

  lemma StringSpelled(data: Input, pos: nat) returns (length: Bytes)
    requires BytesAt(data, pos).Done?
    ensures var r := BytesAt(data, pos);
      Measures(length, r.value) && data[pos..r.pos] == length + [COLON] + r.value && length <= data[pos..]
  {
    hide ParseInt;
    var colon := IndexByte(data, pos, COLON);
    length := data[pos..colon];
    var r := BytesAt(data, pos);
    assert data[pos..r.pos] == data[pos..colon] + [data[colon]] + data[colon + 1..r.pos];
    assert forall k :: 0 <= k < |length| ==> length[k] == data[pos + k];
  }

  /** What has been decoded is spelled out by the bytes read. */
  lemma {:induction false} DecodedSpelled(data: Input, pos: nat, info: Option<Bytes>) returns (t: Text)
    requires DecodeAt(data, pos, info).Done?
    ensures var r := DecodeAt(data, pos, info);
      Legal(t) && Value(t) == r.value && data[pos..r.pos] == Write(t)
    decreases |data| - pos, 1
  {
    hide ParseInt, IndexByte;
    var r := DecodeAt(data, pos, info);
    if data[pos] == INT {
      t := IntSpelled(data, pos);
    } else if data[pos] == LIST {
      var items := ItemsSpelled(data, pos + 1, info, []);
      t := ListText(items);
      assert data[pos..r.pos] == [LIST] + data[pos + 1..r.pos];
      assert [LIST] + (WriteItems(items) + [END]) == Write(t);
    } else if data[pos] == DICT {
      var pairs := PairsSpelled(data, pos + 1, info, map[]);
      t := DictText(pairs);
      assert data[pos..r.pos] == [DICT] + data[pos + 1..r.pos];
      assert [DICT] + (WritePairs(pairs) + [END]) == Write(t);
    } else {
      var length := StringSpelled(data, pos);
      t := StrText(length, BytesAt(data, pos).value);
      FirstByte(data, pos, length);
    }
  }

  lemma FirstByte(data: Input, pos: nat, length: Bytes)
    requires pos < |data| && length <= data[pos..] && ParseInt(length).Some?
    ensures length != [] && length[0] == data[pos]
  {
  }

  lemma IntSpelled(data: Input, pos: nat) returns (t: Text)
    requires pos < |data| && data[pos] == INT && IntAt(data, pos).Done?
    ensures var r := IntAt(data, pos);
      Legal(t) && Value(t) == Int(r.value) && data[pos..r.pos] == Write(t)
  {
    hide ParseInt;
    var end := IndexByte(data, pos + 1, END);
    t := IntText(data[pos + 1..end]);
    assert data[pos..end + 1] == [data[pos]] + data[pos + 1..end] + [data[end]];
    assert forall k :: 0 <= k < |t.digits| ==> t.digits[k] == data[pos + 1 + k];
  }

  lemma ItemsStep(data: Input, pos: nat, info: Option<Bytes>, items: seq<Bencode.Value>)
    requires DecodeItems(data, pos, info, items).Done?
    ensures pos < |data|
    ensures data[pos] == END ==> DecodeItems(data, pos, info, items) == Done(items, pos + 1, info)
    ensures data[pos] != END ==>
      var item := DecodeAt(data, pos, info);
      && item.Done? && pos < item.pos <= |data|
      && DecodeItems(data, pos, info, items) == DecodeItems(data, item.pos, item.info, items + [item.value])
  {
    hide DecodeAt;
  }

  lemma ItemsCons(t: Text, rest: seq<Text>)
    requires Legal(t) && LegalItems(rest)
    ensures LegalItems([t] + rest) && ItemValues([t] + rest) == [Value(t)] + ItemValues(rest)
    ensures WriteItems([t] + rest) == Write(t) + WriteItems(rest)
  {
    assert ([t] + rest)[1..] == rest;
  }

  lemma {:induction false} ItemsSpelled(data: Input, pos: nat, info: Option<Bytes>, items: seq<Bencode.Value>)
    returns (ts: seq<Text>)
    requires DecodeItems(data, pos, info, items).Done?
    ensures var r := DecodeItems(data, pos, info, items);
      LegalItems(ts) && r.value == items + ItemValues(ts) && data[pos..r.pos] == WriteItems(ts) + [END]
    decreases |data| - pos, 2
  {
    hide DecodeAt, DecodeItems, Legal, Value, Write;
    var r := DecodeItems(data, pos, info, items);
    ItemsStep(data, pos, info, items);
    if data[pos] == END {
      ts := [];
      assert data[pos..pos + 1] == [END];
    } else {
      var item := DecodeAt(data, pos, info);
      var t := DecodedSpelled(data, pos, info);
      var rest := ItemsSpelled(data, item.pos, item.info, items + [item.value]);
      hide LegalItems, ItemValues, WriteItems;
      ts := [t] + rest;
      ItemsCons(t, rest);
      assert data[pos..r.pos] == data[pos..item.pos] + data[item.pos..r.pos];
      assert items + [item.value] + ItemValues(rest) == items + ([item.value] + ItemValues(rest));
    }
  }

  lemma PairsStep(data: Input, pos: nat, info: Option<Bytes>, m: map<Bytes, Bencode.Value>)
    requires DecodePairs(data, pos, info, m).Done?
    ensures pos < |data|
    ensures data[pos] == END ==> DecodePairs(data, pos, info, m) == Done(m, pos + 1, info)
    ensures data[pos] != END ==>
      var key := BytesAt(data, pos);
      && key.Done? && pos < key.pos <= |data|
      && var val := DecodeAt(data, key.pos, info);
      && val.Done? && key.pos < val.pos <= |data|
      && DecodePairs(data, pos, info, m) ==
         DecodePairs(data, val.pos, Remember(val.info, key.value, data[key.pos..val.pos]), m[key.value := val.value])
  {
    hide DecodeAt, BytesAt;
  }

  lemma PairsCons(p: PairText, rest: seq<PairText>, before: map<Bytes, Bencode.Value>)
    requires Measures(p.length, p.key) && Legal(p.value) && LegalPairs(rest)
    ensures LegalPairs([p] + rest)
    ensures PairValues([p] + rest, before) == PairValues(rest, before[p.key := Value(p.value)])
    ensures WritePairs([p] + rest) == p.length + [COLON] + p.key + Write(p.value) + WritePairs(rest)
  {
    assert ([p] + rest)[1..] == rest;
  }

  lemma {:induction false} PairsSpelled(data: Input, pos: nat, info: Option<Bytes>, m: map<Bytes, Bencode.Value>)
    returns (ps: seq<PairText>)
    requires DecodePairs(data, pos, info, m).Done?
    ensures var r := DecodePairs(data, pos, info, m);
      LegalPairs(ps) && r.value == PairValues(ps, m) && data[pos..r.pos] == WritePairs(ps) + [END]
    decreases |data| - pos, 2
  {
    hide DecodeAt, DecodePairs, BytesAt, Legal, Value, Write, Measures;
    var r := DecodePairs(data, pos, info, m);
    PairsStep(data, pos, info, m);
    if data[pos] == END {
      ps := [];
      assert data[pos..pos + 1] == [END];
    } else {
      var key := BytesAt(data, pos);
      var length := StringSpelled(data, pos);
      var val := DecodeAt(data, key.pos, info);
      var t := DecodedSpelled(data, key.pos, info);
      var rest := PairsSpelled(data, val.pos, Remember(val.info, key.value, data[key.pos..val.pos]),
                               m[key.value := val.value]);
      hide LegalPairs, PairValues, WritePairs;
      ps := [PairText(length, key.value, t)] + rest;
      PairsCons(ps[0], rest, m);
      assert data[pos..r.pos] == data[pos..key.pos] + data[key.pos..val.pos] + data[val.pos..r.pos];
    }
  }

  // --- And every text of the grammar is read ---

  lemma StringRead(data: Input, pos: nat, length: Bytes, b: Bytes)
    requires At(data, pos, length + [COLON] + b) && Measures(length, b)
    ensures BytesAt(data, pos) == Done(b, pos + |length| + 1 + |b|, None)
  {
    hide ParseInt, IndexByte;
    AtSplit(data, pos, length + [COLON], b);
    AtDelimited(data, pos, length, COLON);
    AtSlice(data, pos + |length| + 1, b);
  }

  lemma WriteFirst(t: Text)
    requires Legal(t)
    ensures Write(t) != [] && Write(t)[0] != END
  {
    hide ParseInt;
  }

  /** A text is read to its end, for the value it stands for. */
  lemma {:induction false} TextRead(data: Input, pos: nat, info: Option<Bytes>, t: Text)
    requires Legal(t) && At(data, pos, Write(t))
    ensures var r := DecodeAt(data, pos, info);
      r.Done? && r.value == Value(t) && r.pos == pos + |Write(t)|
    decreases t, 1
  {
    hide ParseInt, IndexByte, BytesAt, DecodeItems, DecodePairs, LegalItems, LegalPairs, ItemValues, PairValues;
    WriteFirst(t);
    assert data[pos] == Write(t)[0];
    match t
    case IntText(digits) =>
      DigitsRead(data, pos, digits);
    case StrText(length, b) =>
      StringRead(data, pos, length, b);
    case ListText(items) =>
      assert Write(t) == [LIST] + (WriteItems(items) + [END]);
      AtSplit(data, pos, [LIST], WriteItems(items) + [END]);
      ItemsRead(data, pos + 1, info, items, []);
      assert [] + ItemValues(items) == ItemValues(items);
    case DictText(pairs) =>
      assert Write(t) == [DICT] + (WritePairs(pairs) + [END]);
      AtSplit(data, pos, [DICT], WritePairs(pairs) + [END]);
      PairsRead(data, pos + 1, info, pairs, map[]);
  }

  lemma DigitsRead(data: Input, pos: nat, digits: Bytes)
    requires END !in digits && ParseInt(digits).Some? && At(data, pos, [INT] + digits + [END])
    ensures IntAt(data, pos) == Done(ParseInt(digits).value, pos + |digits| + 2, None)
  {
    hide ParseInt, IndexByte;
    assert [INT] + digits + [END] == [INT] + (digits + [END]);
    AtSplit(data, pos, [INT], digits + [END]);
    AtDelimited(data, pos + 1, digits, END);
  }

  lemma {:induction false} ItemsRead(data: Input, pos: nat, info: Option<Bytes>, items: seq<Text>,
                                     before: seq<Bencode.Value>)
    requires LegalItems(items) && At(data, pos, WriteItems(items) + [END])
    ensures var r := DecodeItems(data, pos, info, before);
      r.Done? && r.value == before + ItemValues(items) && r.pos == pos + |WriteItems(items)| + 1
    decreases items, 0
  {
    hide Write, Value, Legal, DecodeAt, DecodeItems, At;
    if items == [] {
      AtFirst(data, pos, WriteItems(items) + [END]);
      NoMoreItems(data, pos, info, before);
    } else {
      var first, rest := Write(items[0]), WriteItems(items[1..]);
      assert WriteItems(items) + [END] == first + (rest + [END]);
      AtSplit(data, pos, first, rest + [END]);
      TextRead(data, pos, info, items[0]);
      WriteFirst(items[0]);
      AtFirst(data, pos, first);
      var item := DecodeAt(data, pos, info);
      ItemsNext(data, pos, info, before);
      ItemsRead(data, item.pos, item.info, items[1..], before + [item.value]);
      assert before + [item.value] + ItemValues(items[1..]) == before + ItemValues(items);
    }
  }

  lemma NoMoreItems(data: Input, pos: nat, info: Option<Bytes>, items: seq<Bencode.Value>)
    requires pos < |data| && data[pos] == END
    ensures DecodeItems(data, pos, info, items) == Done(items, pos + 1, info)
  {
  }

  lemma ItemsNext(data: Input, pos: nat, info: Option<Bytes>, items: seq<Bencode.Value>)
    requires pos < |data| && data[pos] != END && DecodeAt(data, pos, info).Done?
    ensures var item := DecodeAt(data, pos, info);
      DecodeItems(data, pos, info, items) == DecodeItems(data, item.pos, item.info, items + [item.value])
  {
    hide DecodeAt;
  }

  lemma {:induction false} PairsRead(data: Input, pos: nat, info: Option<Bytes>, pairs: seq<PairText>,
                                     before: map<Bytes, Bencode.Value>)
    requires LegalPairs(pairs) && At(data, pos, WritePairs(pairs) + [END])
    ensures var r := DecodePairs(data, pos, info, before);
      r.Done? && r.value == PairValues(pairs, before) && r.pos == pos + |WritePairs(pairs)| + 1
    decreases pairs, 0
  {
    hide Write, Value, Legal, DecodeAt, BytesAt, ParseInt, DecodePairs, Measures;
    if pairs == [] {
      AtFirst(data, pos, WritePairs(pairs) + [END]);
      NoMorePairs(data, pos, info, before);
    } else {
      var p := pairs[0];
      var key, value, rest := p.length + [COLON] + p.key, Write(p.value), WritePairs(pairs[1..]);
      assert WritePairs(pairs) == key + value + rest;
      assert key + value + rest + [END] == key + (value + (rest + [END]));
      AtSplit(data, pos, key, value + (rest + [END]));
      AtSplit(data, pos + |key|, value, rest + [END]);
      StringRead(data, pos, p.length, p.key);
      MeasuredFirst(p.length, p.key);
      AtFirst(data, pos, key);
      TextRead(data, pos + |key|, info, p.value);
      var val := DecodeAt(data, pos + |key|, info);
      PairsNext(data, pos, info, before);
      PairsRead(data, val.pos, Remember(val.info, p.key, data[pos + |key|..val.pos]), pairs[1..],
                before[p.key := val.value]);
    }
  }

  lemma NoMorePairs(data: Input, pos: nat, info: Option<Bytes>, m: map<Bytes, Bencode.Value>)
    requires pos < |data| && data[pos] == END
    ensures DecodePairs(data, pos, info, m) == Done(m, pos + 1, info)
  {
  }

  lemma PairsNext(data: Input, pos: nat, info: Option<Bytes>, m: map<Bytes, Bencode.Value>)
    requires pos < |data| && data[pos] != END && BytesAt(data, pos).Done?
    requires DecodeAt(data, BytesAt(data, pos).pos, info).Done?
    ensures var key := BytesAt(data, pos);
      var val := DecodeAt(data, key.pos, info);
      DecodePairs(data, pos, info, m) ==
        DecodePairs(data, val.pos, Remember(val.info, key.value, data[key.pos..val.pos]), m[key.value := val.value])
  {
    hide DecodeAt, BytesAt;
  }

  lemma MeasuredFirst(length: Bytes, b: Bytes)
    requires Measures(length, b)
    ensures length != [] && length[0] != END
  {
  }

  /** This text stands there, for this value, up to `end`. */
  ghost predicate Spells(data: Input, pos: nat, t: Text, v: Bencode.Value, end: nat) {
    Legal(t) && Value(t) == v && At(data, pos, Write(t)) && end == pos + |Write(t)|
  }

  /** Exactly the texts of the grammar are read. */
  lemma DecodesIff(data: Input, pos: nat, info: Option<Bytes>, v: Bencode.Value, end: nat)
    ensures var r := DecodeAt(data, pos, info);
      r.Done? && r.value == v && r.pos == end <==> exists t :: Spells(data, pos, t, v, end)
  {
    hide DecodeAt, Legal, Value, Write;
    var r := DecodeAt(data, pos, info);
    if r.Done? {
      var t := DecodedSpelled(data, pos, info);
      assert |Write(t)| == r.pos - pos;
      assert Spells(data, pos, t, r.value, r.pos);
    }
    forall t | Spells(data, pos, t, v, end) ensures r.Done? && r.value == v && r.pos == end {
      TextRead(data, pos, info, t);
    }
  }
}
