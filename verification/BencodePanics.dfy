/** When the decoder panics: a string length it reads cannot be allocated (internal/bencode/bencode.go). */
module BencodePanics {
  import opened Strconv
  import opened Bencode

  /** From p to the next colon stands a number that is negative, or wraps around when the string's start is added. */
  ghost predicate BadLength(data: Input, p: nat) {
    var colon := IndexByte(data, p, COLON);
    colon < |data| &&
    var n := ParseInt(data[p..colon]);
    n.Some? && (n.value < 0 || n.value > MAX_INT64 - (colon + 1))
  }

  /** A string panics exactly for such a length. */
  lemma BytesPanicIff(data: Input, p: nat)
    ensures BytesAt(data, p).Panic? <==> BadLength(data, p)
  {
    hide ParseInt;
  }

  // --- The lengths the decoder reads ---

  /** Decoding the value at pos comes to read a length at p. */
  ghost predicate Reads(data: Input, pos: nat, info: Option<Bytes>, p: nat)
    decreases |data| - pos, 1
  {
    pos < |data| &&
    if data[pos] == INT then false
    else if data[pos] == LIST then ReadsItems(data, pos + 1, info, p)
    else if data[pos] == DICT then ReadsPairs(data, pos + 1, info, p)
    else IsDigit(data[pos]) && p == pos
  }

  ghost predicate ReadsItems(data: Input, pos: nat, info: Option<Bytes>, p: nat)
    decreases |data| - pos, 2
  {
    pos < |data| && data[pos] != END &&
    var item := DecodeAt(data, pos, info);
    Reads(data, pos, info, p) || (item.Done? && ReadsItems(data, item.pos, item.info, p))
  }

  ghost predicate ReadsPairs(data: Input, pos: nat, info: Option<Bytes>, p: nat)
    decreases |data| - pos, 2
  {
    pos < |data| && data[pos] != END &&
    var key := BytesAt(data, pos);
    p == pos ||
    (key.Done? &&
     var val := DecodeAt(data, key.pos, info);
     Reads(data, key.pos, info, p)
     || (val.Done? && ReadsPairs(data, val.pos, Remember(val.info, key.value, data[key.pos..val.pos]), p)))
  }

  /** They stand in the data, where decoding has come to or beyond. */
  lemma {:induction false} ReadsWithin(data: Input, pos: nat, info: Option<Bytes>, p: nat)
    ensures Reads(data, pos, info, p) ==> pos <= p < |data|
    decreases |data| - pos, 1
  {
    hide BytesAt, DecodeAt;
    if pos < |data| {
      ItemsWithin(data, pos + 1, info, p);
      PairsWithin(data, pos + 1, info, p);
    }
  }

  lemma {:induction false} ItemsWithin(data: Input, pos: nat, info: Option<Bytes>, p: nat)
    ensures ReadsItems(data, pos, info, p) ==> pos <= p < |data|
    decreases |data| - pos, 2
  {
    hide BytesAt, DecodeAt;
    if pos < |data| && data[pos] != END {
      ReadsWithin(data, pos, info, p);
      var item := DecodeAt(data, pos, info);
      if item.Done? { ItemsWithin(data, item.pos, item.info, p); }
    }
  }

  lemma {:induction false} PairsWithin(data: Input, pos: nat, info: Option<Bytes>, p: nat)
    ensures ReadsPairs(data, pos, info, p) ==> pos <= p < |data|
    decreases |data| - pos, 2
  {
    hide BytesAt, DecodeAt;
    if pos < |data| && data[pos] != END {
      var key := BytesAt(data, pos);
      if key.Done? {
        ReadsWithin(data, key.pos, info, p);
        var val := DecodeAt(data, key.pos, info);
        if val.Done? { PairsWithin(data, val.pos, Remember(val.info, key.value, data[key.pos..val.pos]), p); }
      }
    }
  }

  // --- And no others make it panic ---

  /** The decoder panics exactly when a length it comes to read is bad. */
  lemma {:induction false} DecodePanicIff(data: Input, pos: nat, info: Option<Bytes>)
    ensures DecodeAt(data, pos, info).Panic? <==> exists p :: Reads(data, pos, info, p) && BadLength(data, p)
    decreases |data| - pos, 1
  {
    hide BytesAt, DecodeItems, DecodePairs, IntAt, BadLength, ReadsItems, ReadsPairs;
    if pos < |data| {
      if data[pos] == LIST {
        ItemsPanicIff(data, pos + 1, info, []);
      } else if data[pos] == DICT {
        PairsPanicIff(data, pos + 1, info, map[]);
      } else if data[pos] != INT && IsDigit(data[pos]) {
        BytesPanicIff(data, pos);
        assert Reads(data, pos, info, pos);
      }
    }
  }

  lemma {:induction false} ItemsPanicIff(data: Input, pos: nat, info: Option<Bytes>, items: seq<Value>)
    ensures DecodeItems(data, pos, info, items).Panic? <==>
      exists p :: ReadsItems(data, pos, info, p) && BadLength(data, p)
    decreases |data| - pos, 2
  {
    hide DecodeAt, Reads, BadLength;
    if pos < |data| && data[pos] != END {
      DecodePanicIff(data, pos, info);
      var item := DecodeAt(data, pos, info);
      if item.Done? {
        ItemsPanicIff(data, item.pos, item.info, items + [item.value]);
      }
    }
  }

  lemma {:induction false} PairsPanicIff(data: Input, pos: nat, info: Option<Bytes>, m: map<Bytes, Value>)
    ensures DecodePairs(data, pos, info, m).Panic? <==> exists p :: ReadsPairs(data, pos, info, p) && BadLength(data, p)
    decreases |data| - pos, 2
  {
    hide DecodeAt, BytesAt, Reads, BadLength;
    if pos < |data| && data[pos] != END {
      BytesPanicIff(data, pos);
      assert ReadsPairs(data, pos, info, pos);
      var key := BytesAt(data, pos);
      if key.Done? {
        DecodePanicIff(data, key.pos, info);
        var val := DecodeAt(data, key.pos, info);
        if val.Done? {
          PairsPanicIff(data, val.pos, Remember(val.info, key.value, data[key.pos..val.pos]),
            m[key.value := val.value]);
        }
      }
    }
  }

  /** So does DecodeTorrent, whose dict starts after the first byte. */
  lemma TorrentPanicIff(data: Input)
    ensures TorrentOf(data).TorrentPanic? <==> exists p :: ReadsPairs(data, 1, None, p) && BadLength(data, p)
  {
    hide DecodePairs, ReadsPairs, BadLength;
    PairsPanicIff(data, 1, None, map[]);
  }

  /** Data in which no length is bad is safe. */
  lemma SafeData(data: Input)
    requires forall p :: 0 < p < |data| ==> !BadLength(data, p)
    ensures !TorrentOf(data).TorrentPanic?
  {
    hide TorrentOf, ReadsPairs, BadLength;
    TorrentPanicIff(data);
    forall p | ReadsPairs(data, 1, None, p) ensures !BadLength(data, p) {
      PairsWithin(data, 1, None, p);
    }
  }

  // --- Lengths that do ---

  lemma ColonAfter(data: Input, from: nat, n: nat)
    requires from + n < |data| && data[from + n] == COLON && forall k :: from <= k < from + n ==> data[k] != COLON
    ensures IndexByte(data, from, COLON) == from + n
  {
    hide IndexByte;
  }

  lemma DigitsOf(n: int)
    ensures forall k :: 0 <= k < |FormatInt(n)| ==> FormatInt(n)[k] != COLON
  {
    hide FormatNat;
  }

  /** A number in front of a colon is the length read there. */
  lemma LengthRead(data: Input, p: nat, n: int)
    requires MIN_INT64 <= n <= MAX_INT64 && p + |FormatInt(n)| < |data|
    requires data[p..p + |FormatInt(n)|] == FormatInt(n) && data[p + |FormatInt(n)|] == COLON
    ensures BadLength(data, p) <==> n < 0 || n > MAX_INT64 - (p + |FormatInt(n)| + 1)
  {
    hide IndexByte, ParseInt, FormatInt;
    var digits := FormatInt(n);
    DigitsOf(n);
    forall k | p <= k < p + |digits| ensures data[k] != COLON {
      assert data[k] == data[p..p + |digits|][k - p];
    }
    ColonAfter(data, p, |digits|);
    ParseFormat(n);
  }

  /** A torrent file whose first key has a negative length makes the decoder panic, such as `d-1:`. */
  lemma NegativeLength(n: int, rest: Bytes)
    requires MIN_INT64 <= n < 0 && 2 + |FormatInt(n)| + |rest| <= MAX_INT64
    ensures TorrentOf([DICT] + FormatInt(n) + [COLON] + rest).TorrentPanic?
  {
    hide TorrentOf, FormatNat, BadLength;
    var data: Input := [DICT] + FormatInt(n) + [COLON] + rest;
    assert data[1..1 + |FormatInt(n)|] == FormatInt(n);
    LengthRead(data, 1, n);
    assert data[1] == FormatInt(n)[0] == MINUS;
    assert ReadsPairs(data, 1, None, 1);
    TorrentPanicIff(data);
  }

  /** So does a value whose length is so large that its end wraps around. */
  lemma HugeLength(n: int, rest: Bytes)
    requires 0 <= n <= MAX_INT64 && |FormatInt(n)| + 1 + |rest| <= MAX_INT64
    ensures DecodeAt(FormatInt(n) + [COLON] + rest, 0, None).Panic? <==> n > MAX_INT64 - (|FormatInt(n)| + 1)
  {
    hide DecodeAt, FormatNat, BadLength;
    var data: Input := FormatInt(n) + [COLON] + rest;
    assert data[0..|FormatInt(n)|] == FormatInt(n);
    LengthRead(data, 0, n);
    assert data[0] == FormatInt(n)[0] && IsDigit(data[0]);
    assert forall p :: Reads(data, 0, None, p) <==> p == 0;
    DecodePanicIff(data, 0, None);
  }
}
