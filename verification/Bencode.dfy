/**
  The bencode decoder (internal/bencode/bencode.go).

  `Decoder` is the source's imperative decoder. Its methods are proved against
  the functions DecodeAt, DecodeItems and DecodePairs, and those against the
  encoding of BEP 3, section "bencoding".
 */
module Bencode {
  import opened Strconv

  const COLON: byte := 58
  const DICT: byte := 100   // 'd'
  const END: byte := 101    // 'e'
  const INT: byte := 105    // 'i'
  const LIST: byte := 108   // 'l'
  const INFO: Bytes := [105, 110, 102, 111]  // "info"

  datatype Value =
    | Int(n: int)
    | Str(b: Bytes)
    | List(items: seq<Value>)
    | Dict(entries: map<Bytes, Value>)

  /** How one decoding step ends. `info` is the slice whose SHA-1 is kept, once there is one. */
  datatype Step<+T> =
    | Done(value: T, pos: nat, info: Option<Bytes>)
    | Error
    | Panic

  // --- What the decoder computes ---

  function DecodeAt(data: Input, pos: nat, info: Option<Bytes>): (r: Step<Value>)
    ensures r.Done? ==> pos < r.pos <= |data|
    decreases |data| - pos, 1
  {
    if pos >= |data| then Error
    else if data[pos] == INT then
      var r := IntAt(data, pos);
      if r.Done? then Done(Int(r.value), r.pos, info) else Error
    else if data[pos] == LIST then
      var r := DecodeItems(data, pos + 1, info, []);
      if r.Done? then Done(List(r.value), r.pos, r.info) else if r.Error? then Error else Panic
    else if data[pos] == DICT then
      var r := DecodePairs(data, pos + 1, info, map[]);
      if r.Done? then Done(Dict(r.value), r.pos, r.info) else if r.Error? then Error else Panic
    else if IsDigit(data[pos]) then
      var r := BytesAt(data, pos);
      if r.Done? then Done(Str(r.value), r.pos, info) else if r.Error? then Error else Panic
    else Error
  }

  function IntAt(data: Input, pos: nat): (r: Step<int>)
    ensures r.Done? ==> pos < r.pos <= |data|
    ensures !r.Panic?
  {
    var end := IndexByte(data, pos + 1, END);
    if end >= |data| then Error
    else
      var n := ParseInt(data[pos + 1..end]);
      if n.None? then Error else Done(n.value, end + 1, None)
  }

  function BytesAt(data: Input, pos: nat): (r: Step<Bytes>)
    ensures r.Done? ==> pos < r.pos <= |data|
  {
    var colon := IndexByte(data, pos, COLON);
    if colon >= |data| then Error
    else
      var n := ParseInt(data[pos..colon]);
      if n.None? then Error
      else
        var start := colon + 1;
        var end := Add64(start, n.value);
        if end > |data| then Error
        // make([]byte, n) with a negative or an impossible length
        else if n.value < 0 || end < start then Panic
        else Done(data[start..end], end, None)
  }

  /** The items up to the closing 'e', added to items. */
  function DecodeItems(data: Input, pos: nat, info: Option<Bytes>, items: seq<Value>): (r: Step<seq<Value>>)
    ensures r.Done? ==> pos < r.pos <= |data|
    decreases |data| - pos, 2
  {
    if pos >= |data| then Error
    else if data[pos] == END then Done(items, pos + 1, info)
    else
      var item := DecodeAt(data, pos, info);
      if item.Error? then Error
      else if item.Panic? then Panic
      else DecodeItems(data, item.pos, item.info, items + [item.value])
  }

  function Remember(info: Option<Bytes>, key: Bytes, raw: Bytes): Option<Bytes> {
    if key == INFO && info.None? then Some(raw) else info
  }

  /** The pairs up to the closing 'e', added to m. */
  function DecodePairs(data: Input, pos: nat, info: Option<Bytes>, m: map<Bytes, Value>): (r: Step<map<Bytes, Value>>)
    ensures r.Done? ==> pos < r.pos <= |data|
    decreases |data| - pos, 2
  {
    if pos >= |data| then Error
    else if data[pos] == END then Done(m, pos + 1, info)
    else
      var key := BytesAt(data, pos);
      if key.Error? then Error
      else if key.Panic? then Panic
      else
        var val := DecodeAt(data, key.pos, info);
        if val.Error? then Error
        else if val.Panic? then Panic
        else DecodePairs(data, val.pos, Remember(val.info, key.value, data[key.pos..val.pos]),
          m[key.value := val.value])
  }

  // --- The decoder ---

  datatype Result<+T> = Ok(value: T) | Err | Crash

  /** A method's result and the decoder's new fields, as the step they amount to. */
  function Outcome<T>(r: Result<T>, pos: nat, info: Option<Bytes>): Step<T> {
    match r
    case Ok(v) => Done(v, pos, info)
    case Err => Error
    case Crash => Panic
  }

  class Decoder {
    const data: Input
    var pos: nat
    var infoRaw: Bytes   // the bytes the source hashes into infoSHA1
    var infoSet: bool

    constructor (data: Input)
      ensures this.data == data && pos == 0 && Info() == None
    {
      this.data := data;
      pos, infoRaw, infoSet := 0, [], false;
    }

    function Info(): Option<Bytes>
      reads this
    {
      if infoSet then Some(infoRaw) else None
    }

    method Decode() returns (r: Result<Value>)
      modifies this
      ensures Outcome(r, pos, Info()) == DecodeAt(data, old(pos), old(Info()))
      decreases |data| - pos, 3
    {
      if pos >= |data| { return Err; }
      if data[pos] == INT {
        var n := DecodeInt();
        r := if n.Ok? then Ok(Int(n.value)) else Err;
      } else if data[pos] == LIST {
        var items := DecodeList();
        r := if items.Ok? then Ok(List(items.value)) else if items.Err? then Err else Crash;
      } else if data[pos] == DICT {
        var m := DecodeDict();
        r := if m.Ok? then Ok(Dict(m.value)) else if m.Err? then Err else Crash;
      } else if IsDigit(data[pos]) {
        var b := DecodeBytes();
        r := if b.Ok? then Ok(Str(b.value)) else if b.Err? then Err else Crash;
      } else {
        r := Err;
      }
    }

    method Find(b: byte) returns (at: nat)
      requires pos <= |data|
      ensures at == IndexByte(data, pos, b)
    {
      at := pos;
      while at < |data| && data[at] != b
        invariant pos <= at <= |data|
        invariant IndexByte(data, at, b) == IndexByte(data, pos, b)
      {
        at := at + 1;
      }
    }

    method DecodeInt() returns (r: Result<int>)
      requires pos < |data|
      modifies this
      ensures Info() == old(Info())
      ensures !r.Crash?
      ensures Outcome(r, pos, None) == IntAt(data, old(pos))
    {
      hide ParseInt, IndexByte;
      pos := pos + 1;
      var end := Find(END);
      if end >= |data| { return Err; }
      var n := ParseInt(data[pos..end]);
      if n.None? { return Err; }
      pos := end + 1;
      r := Ok(n.value);
    }

    method DecodeBytes() returns (r: Result<Bytes>)
      requires pos < |data|
      modifies this
      ensures Info() == old(Info())
      ensures Outcome(r, pos, None) == BytesAt(data, old(pos))
    {
      var colon := Find(COLON);
      if colon >= |data| { return Err; }
      var length := ParseInt(data[pos..colon]);
      if length.None? { return Err; }
      var start := colon + 1;
      var end := Add64(start, length.value);
      if end > |data| { return Err; }
      if length.value < 0 || end < start { return Crash; }
      r := Ok(data[start..end]);
      pos := end;
    }

    method DecodeList() returns (r: Result<seq<Value>>)
      requires pos < |data|
      modifies this
      ensures Outcome(r, pos, Info()) == DecodeItems(data, old(pos) + 1, old(Info()), [])
      decreases |data| - pos, 2
    {
      hide DecodeAt;
      pos := pos + 1;
      var items := [];
      ghost var all := DecodeItems(data, pos, Info(), items);
      while pos < |data| && data[pos] != END
        invariant old(pos) < pos
        invariant all == DecodeItems(data, pos, Info(), items)
        decreases |data| - pos
      {
        var item := Decode();
        if item.Err? { return Err; }
        if item.Crash? { return Crash; }
        items := items + [item.value];
      }
      if pos >= |data| { return Err; }
      pos := pos + 1;
      r := Ok(items);
    }

    method DecodeDict() returns (r: Result<map<Bytes, Value>>)
      modifies this
      ensures Outcome(r, pos, Info()) == DecodePairs(data, old(pos) + 1, old(Info()), map[])
      decreases |data| - pos, 2
    {
      hide BytesAt, DecodeAt;
      pos := pos + 1;
      var m := map[];
      ghost var all := DecodePairs(data, pos, Info(), m);
      while pos < |data| && data[pos] != END
        invariant old(pos) < pos
        invariant all == DecodePairs(data, pos, Info(), m)
        decreases |data| - pos
      {
        var key := DecodeBytes();
        if key.Err? { return Err; }
        if key.Crash? { return Crash; }
        var valueStart := pos;
        var val := Decode();
        if val.Err? { return Err; }
        if val.Crash? { return Crash; }
        if key.value == INFO && !infoSet {
          infoRaw := data[valueStart..pos];
          infoSet := true;
        }
        m := m[key.value := val.value];
      }
      if pos >= |data| { return Err; }
      pos := pos + 1;
      r := Ok(m);
    }
  }

  // --- The info hash of a torrent file ---

  /** How DecodeTorrent ends, with the bytes whose SHA-1 is the info hash. */
  datatype Torrent = Hashed(raw: Bytes) | BadTorrent | MissingInfo | InfoNotDict | TorrentPanic

  /** The first byte is skipped unread, as the source does. */
  function TorrentOf(data: Input): Torrent {
    var root := DecodePairs(data, 1, None, map[]);
    if root.Error? then BadTorrent
    else if root.Panic? then TorrentPanic
    else if root.info.None? then MissingInfo
    else if INFO !in root.value || !root.value[INFO].Dict? then InfoNotDict
    else Hashed(root.info.value)
  }

  method DecodeTorrent(data: Input) returns (t: Torrent)
    ensures t == TorrentOf(data)
  {
    hide DecodePairs;
    var d := new Decoder(data);
    var root := d.DecodeDict();
    if root.Err? { return BadTorrent; }
    if root.Crash? { return TorrentPanic; }
    if !d.infoSet { return MissingInfo; }
    if INFO !in root.value || !root.value[INFO].Dict? { return InfoNotDict; }
    t := Hashed(d.infoRaw);
  }
}
