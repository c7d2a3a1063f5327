/**
 * The framed wire protocol of pkg/protocol: length-prefixed headers (frame.go), payloads (payload.go), messages
 * (message.go).
 */
module Frames {
  import opened Files

  const MAX_HEADER: nat := 0x1_0000
  const MAX_PAYLOAD: nat := 0x10_0000
  const MAX_RESPONSE: nat := 0x80_0000
  const MIN_COMPRESSIBLE: nat := 0x1000
  const FLATE: string := "flate"

  /** A request or response header: its own fields, and the three that describe the payload. */
  datatype Header<F> = Header(fields: F, dataLength: int, dataEncoding: string, rawDataLength: int)

  /**
   * JSON for headers and DEFLATE for payloads. `text` tells which fields survive JSON: those whose strings are valid
   * UTF-8. Inflating yields the bytes decoded before the end or an error, and whether there was none.
   */
  datatype Codec<!F> = Codec(
    marshal: Header<F> -> seq<Byte>,
    unmarshal: seq<Byte> -> Option<Header<F>>,
    deflate: seq<Byte> -> seq<Byte>,
    inflate: seq<Byte> -> (seq<Byte>, bool),
    text: F -> bool)

  /** The inverse laws of the two libraries. */
  ghost predicate Lawful<F(!new)>(codec: Codec<F>) {
    && (forall h: Header<F> :: codec.text(h.fields) ==>
        codec.marshal(h) != [] && codec.unmarshal(codec.marshal(h)) == Some(h))
    && (forall data: seq<Byte> :: codec.inflate(codec.deflate(data)) == (data, true))
  }

  /** binary.BigEndian.PutUint32 */
  function BigEndian(n: nat): (r: seq<Byte>)
    requires n < 0x1_0000_0000
    ensures |r| == 4
  {
    [(n / 0x100_0000) as Byte, (n / 0x1_0000 % 0x100) as Byte, (n / 0x100 % 0x100) as Byte, (n % 0x100) as Byte]
  }

  /** binary.BigEndian.Uint32 */
  function Number(size: seq<Byte>): nat
    requires |size| == 4
  {
    size[0] as nat * 0x100_0000 + size[1] as nat * 0x1_0000 + size[2] as nat * 0x100 + size[3] as nat
  }

  lemma NumberOfBigEndian(n: nat)
    requires n < 0x1_0000_0000
    ensures Number(BigEndian(n)) == n
  {
    assert n == n / 0x100_0000 * 0x100_0000 + n / 0x1_0000 % 0x100 * 0x1_0000 + n / 0x100 % 0x100 * 0x100 + n % 0x100;
  }

  /** Most significant byte first. */
  lemma BigEndianPlaces(n: nat)
    requires n < 0x1_0000_0000
    ensures var r := BigEndian(n);
            n == r[0] as nat * 0x100_0000 + r[1] as nat * 0x1_0000 + r[2] as nat * 0x100 + r[3] as nat
  {
    NumberOfBigEndian(n);
  }

  /** encodePayload: what is sent, the encoding and the raw length that go into the header. */
  function EncodePayload<F>(codec: Codec<F>, data: seq<Byte>): (seq<Byte>, string, nat) {
    if |data| < MIN_COMPRESSIBLE then (data, "", 0)
    else
      var encoded := codec.deflate(data);
      if |encoded| >= |data| - |data| / 16 then (data, "", 0) else (encoded, FLATE, |data|)
  }

  /** decodePayload; the limited reader stops one byte past the promised length. */
  function DecodePayload<F>(codec: Codec<F>, data: seq<Byte>, encoding: string, rawLength: int,
                            maximum: nat): Option<seq<Byte>> {
    if encoding == "" then
      if rawLength != 0 then None else Some(data)
    else if encoding != FLATE || rawLength <= 0 || rawLength > maximum then None
    else
      var (decoded, clean) := codec.inflate(data);
      if |decoded| == rawLength && clean then Some(decoded) else None
  }

  /** Whichever encoding is chosen, the payload is no longer than the data and decodes to it within the same limit. */
  lemma PayloadRoundTrip<F(!new)>(codec: Codec<F>, data: seq<Byte>, maximum: nat)
    requires Lawful(codec) && |data| <= maximum
    ensures var (payload, encoding, rawLength) := EncodePayload(codec, data);
            && |payload| <= |data| && rawLength <= |data|
            && DecodePayload(codec, payload, encoding, rawLength, maximum) == Some(data)
  {
  }

  /** Data is deflated exactly if it has 4 KiB or more and that saves over a sixteenth; else it is sent as it is. */
  lemma DeflatedExactly<F>(codec: Codec<F>, data: seq<Byte>)
    ensures var (payload, encoding, rawLength) := EncodePayload(codec, data);
            if |data| >= 4096 && 16 * |codec.deflate(data)| < 15 * |data|
            then payload == codec.deflate(data) && encoding == "flate" && rawLength == |data|
            else payload == data && encoding == "" && rawLength == 0
  {
  }

  /** A payload is taken as it is, or exactly if it inflates cleanly to as many bytes as promised, within the limit. */
  lemma DecodedExactly<F>(codec: Codec<F>, payload: seq<Byte>, encoding: string, rawLength: int, maximum: nat,
                          data: seq<Byte>)
    ensures DecodePayload(codec, payload, encoding, rawLength, maximum) == Some(data) <==>
              || (encoding == "" && rawLength == 0 && data == payload)
              || (encoding == "flate" && 0 < rawLength <= maximum && rawLength == |data|
                  && codec.inflate(payload) == (data, true))
  {
  }

  /** The header a message is sent with. */
  function Sealed<F>(codec: Codec<F>, fields: F, data: seq<Byte>): Header<F> {
    var (payload, encoding, rawLength) := EncodePayload(codec, data);
    Header(fields, |payload|, encoding, rawLength)
  }

  /** The bytes of a message, or nothing if it is refused; the limit is that of requests or that of responses. */
  function Message<F>(codec: Codec<F>, fields: F, data: seq<Byte>, limit: nat): Option<seq<Byte>> {
    var header := codec.marshal(Sealed(codec, fields, data));
    if |data| > limit || |header| > MAX_HEADER then None
    else Some(BigEndian(|header|) + header + EncodePayload(codec, data).0)
  }

  /** What a reader makes of a stream of bytes: the header, the data, and the bytes that follow. */
  datatype Parsed<F> = Parsed(header: Header<F>, data: seq<Byte>, rest: seq<Byte>)

  function ParseHeader<F>(codec: Codec<F>, bytes: seq<Byte>): Option<(Header<F>, seq<Byte>)> {
    if |bytes| < 4 then None
    else
      var length := Number(bytes[..4]);
      if length == 0 || length > MAX_HEADER || |bytes| < 4 + length then None
      else
        var header := codec.unmarshal(bytes[4..4 + length]);
        if header.None? then None else Some((header.value, bytes[4 + length..]))
  }

  function ParsePayload<F>(codec: Codec<F>, header: Header<F>, bytes: seq<Byte>,
                           limit: nat): Option<(seq<Byte>, seq<Byte>)> {
    if header.dataLength < 0 || header.dataLength > limit || |bytes| < header.dataLength then None
    else
      var data := DecodePayload(codec, bytes[..header.dataLength], header.dataEncoding, header.rawDataLength, limit);
      if data.None? then None else Some((data.value, bytes[header.dataLength..]))
  }

  function Parse<F>(codec: Codec<F>, bytes: seq<Byte>, limit: nat): Option<Parsed<F>> {
    var header := ParseHeader(codec, bytes);
    if header.None? then None
    else
      var payload := ParsePayload(codec, header.value.0, header.value.1, limit);
      if payload.None? then None else Some(Parsed(header.value.0, payload.value.0, payload.value.1))
  }

  /** What a number of four bytes stands for. */
  function Places(a: Byte, b: Byte, c: Byte, d: Byte): nat {
    a as nat * 0x100_0000 + b as nat * 0x1_0000 + c as nat * 0x100 + d as nat
  }

  /**
   * A reader accepts exactly this: four bytes with the length of a header, between 1 byte and 64 KiB; that many bytes
   * which are a header; as many bytes as it promises, within the limit, which decode; and it leaves what follows.
   */
  lemma ParsedExactly<F(!new)>(codec: Codec<F>, bytes: seq<Byte>, limit: nat)
    ensures var parsed := Parse(codec, bytes, limit);
            var size := if |bytes| < 4 then 0 else Places(bytes[0], bytes[1], bytes[2], bytes[3]);
            if size < 1 || size > 65536 || |bytes| < 4 + size then parsed.None?
            else
              match codec.unmarshal(bytes[4..4 + size])
              case None => parsed.None?
              case Some(h) =>
                if h.dataLength < 0 || h.dataLength > limit || |bytes| < 4 + size + h.dataLength then parsed.None?
                else
                  var from := 4 + size;
                  match DecodePayload(codec, bytes[from..from + h.dataLength], h.dataEncoding, h.rawDataLength, limit)
                  case None => parsed.None?
                  case Some(data) => parsed == Some(Parsed(h, data, bytes[from + h.dataLength..]))
  {
    hide DecodePayload;
    if |bytes| >= 4 {
      assert bytes[..4] == [bytes[0], bytes[1], bytes[2], bytes[3]];
      var size := Number(bytes[..4]);
      if 1 <= size <= 65536 && |bytes| >= 4 + size && codec.unmarshal(bytes[4..4 + size]).Some? {
        var h, rest := codec.unmarshal(bytes[4..4 + size]).value, bytes[4 + size..];
        if 0 <= h.dataLength <= |rest| {
          assert rest[..h.dataLength] == bytes[4 + size..4 + size + h.dataLength];
          assert rest[h.dataLength..] == bytes[4 + size + h.dataLength..];
        }
      }
    }
  }

  /** A message is refused exactly if its data is over the limit or its header over 64 KiB. */
  lemma SentExactly<F>(codec: Codec<F>, fields: F, data: seq<Byte>, limit: nat)
    ensures var (payload, encoding, rawLength) := EncodePayload(codec, data);
            var header := codec.marshal(Header(fields, |payload|, encoding, rawLength));
            var message := Message(codec, fields, data, limit);
            if |data| > limit || |header| > 65536 then message.None?
            else
              && message.Some? && |message.value| == 4 + |header| + |payload|
              && message.value[4..] == header + payload
              && Places(message.value[0], message.value[1], message.value[2], message.value[3]) == |header|
  {
    var (payload, encoding, rawLength) := EncodePayload(codec, data);
    var header := codec.marshal(Header(fields, |payload|, encoding, rawLength));
    if |data| <= limit && |header| <= 65536 {
      hide EncodePayload;
      BigEndianPlaces(|header|);
      var size := BigEndian(|header|);
      assert (size + header + payload)[4..] == header + payload;
      assert size + header + payload == size + (header + payload);
    }
  }

  lemma HeaderRoundTrip<F(!new)>(codec: Codec<F>, h: Header<F>, rest: seq<Byte>)
    requires Lawful(codec) && codec.text(h.fields) && |codec.marshal(h)| <= MAX_HEADER
    ensures ParseHeader(codec, BigEndian(|codec.marshal(h)|) + codec.marshal(h) + rest) == Some((h, rest))
  {
    var data := codec.marshal(h);
    var size := BigEndian(|data|);
    NumberOfBigEndian(|data|);
    var bytes := size + data + rest;
    assert bytes[..4] == size && bytes[4..4 + |data|] == data && bytes[4 + |data|..] == rest;
  }

  /** A message reads back as what was written, and what follows it is left untouched. */
  lemma MessageRoundTrip<F(!new)>(codec: Codec<F>, fields: F, data: seq<Byte>, limit: nat, rest: seq<Byte>)
    requires Lawful(codec) && codec.text(fields) && Message(codec, fields, data, limit).Some?
    ensures Parse(codec, Message(codec, fields, data, limit).value + rest, limit) ==
              Some(Parsed(Sealed(codec, fields, data), data, rest))
  {
    hide Lawful, EncodePayload, DecodePayload, ParseHeader, BigEndian;
    var h := Sealed(codec, fields, data);
    var header, payload := codec.marshal(h), EncodePayload(codec, data).0;
    PayloadRoundTrip(codec, data, limit);
    HeaderRoundTrip(codec, h, payload + rest);
    assert Message(codec, fields, data, limit).value + rest == BigEndian(|header|) + header + (payload + rest);
    assert (payload + rest)[..|payload|] == payload && (payload + rest)[|payload|..] == rest;
  }

  lemma HeaderCut<F(!new)>(codec: Codec<F>, h: Header<F>, payload: seq<Byte>, n: nat)
    requires Lawful(codec) && codec.text(h.fields) && |codec.marshal(h)| <= MAX_HEADER
    requires n < 4 + |codec.marshal(h)| + |payload|
    ensures var seen := ParseHeader(codec, (BigEndian(|codec.marshal(h)|) + codec.marshal(h) + payload)[..n]);
            seen.None? || (seen.value.0 == h && |seen.value.1| < |payload|)
  {
    var data := codec.marshal(h);
    var size := BigEndian(|data|);
    var bytes := size + data + payload;
    NumberOfBigEndian(|data|);
    if n >= 4 {
      assert bytes[..n][..4] == size;
      if n >= 4 + |data| {
        assert bytes[..n][4..4 + |data|] == data;
      }
    }
  }

  /** A message that is cut short is never taken for a message. */
  lemma MessageCut<F(!new)>(codec: Codec<F>, fields: F, data: seq<Byte>, limit: nat, n: nat)
    requires Lawful(codec) && codec.text(fields) && Message(codec, fields, data, limit).Some?
    requires n < |Message(codec, fields, data, limit).value|
    ensures Parse(codec, Message(codec, fields, data, limit).value[..n], limit).None?
  {
    hide Lawful, EncodePayload, ParseHeader, BigEndian;
    HeaderCut(codec, Sealed(codec, fields, data), EncodePayload(codec, data).0, n);
  }

  /** Messages one after the other on one stream. */
  function Messages<F>(codec: Codec<F>, items: seq<(F, seq<Byte>)>, limit: nat): Option<seq<Byte>> {
    if items == [] then Some([])
    else
      var head, tail := Message(codec, items[0].0, items[0].1, limit), Messages(codec, items[1..], limit);
      if head.None? || tail.None? then None else Some(head.value + tail.value)
  }

  /** Reading a number of messages from one stream. */
  function ParseMany<F>(codec: Codec<F>, bytes: seq<Byte>, count: nat,
                        limit: nat): Option<(seq<(F, seq<Byte>)>, seq<Byte>)> {
    if count == 0 then Some(([], bytes))
    else
      var first := Parse(codec, bytes, limit);
      if first.None? then None
      else
        var others := ParseMany(codec, first.value.rest, count - 1, limit);
        if others.None? then None
        else Some(([(first.value.header.fields, first.value.data)] + others.value.0, others.value.1))
  }

  /** Any concatenation of messages decodes to the original sequence. */
  lemma {:induction false} MessagesRoundTrip<F(!new)>(codec: Codec<F>, items: seq<(F, seq<Byte>)>, limit: nat,
                                                      rest: seq<Byte>)
    requires Lawful(codec) && Messages(codec, items, limit).Some?
    requires forall i :: 0 <= i < |items| ==> codec.text(items[i].0)
    ensures ParseMany(codec, Messages(codec, items, limit).value + rest, |items|, limit) == Some((items, rest))
  {
    hide *;
    if items == [] {
      NoMessages(codec, limit, rest);
    } else {
      MessagesParts(codec, items, limit);
      var head, tail := Message(codec, items[0].0, items[0].1, limit).value, Messages(codec, items[1..], limit).value;
      MessagesRoundTrip(codec, items[1..], limit, rest);
      MessageRoundTrip(codec, items[0].0, items[0].1, limit, tail + rest);
      SealedFields(codec, items[0].0, items[0].1);
      ParseManyNext(codec, head + (tail + rest), |items|, limit);
      assert (head + tail) + rest == head + (tail + rest);
      assert items == [items[0]] + items[1..];
    }
  }

  lemma NoMessages<F>(codec: Codec<F>, limit: nat, rest: seq<Byte>)
    ensures Messages(codec, [], limit).Some?
    ensures ParseMany(codec, Messages(codec, [], limit).value + rest, 0, limit) == Some(([], rest))
  {
    assert [] + rest == rest;
  }

  lemma MessagesParts<F>(codec: Codec<F>, items: seq<(F, seq<Byte>)>, limit: nat)
    requires items != [] && Messages(codec, items, limit).Some?
    ensures Message(codec, items[0].0, items[0].1, limit).Some? && Messages(codec, items[1..], limit).Some?
    ensures Messages(codec, items, limit).value ==
              Message(codec, items[0].0, items[0].1, limit).value + Messages(codec, items[1..], limit).value
  {
  }

  lemma ParseManyNext<F>(codec: Codec<F>, bytes: seq<Byte>, count: nat, limit: nat)
    requires count > 0 && Parse(codec, bytes, limit).Some?
    requires ParseMany(codec, Parse(codec, bytes, limit).value.rest, count - 1, limit).Some?
    ensures var first := Parse(codec, bytes, limit).value;
            var others := ParseMany(codec, first.rest, count - 1, limit).value;
            ParseMany(codec, bytes, count, limit) == Some(([(first.header.fields, first.data)] + others.0, others.1))
  {
  }

  lemma SealedFields<F>(codec: Codec<F>, fields: F, data: seq<Byte>)
    ensures Sealed(codec, fields, data).fields == fields
  {
  }

  /** The sending end of a stream that dies after some number of bytes. */
  class Writer {
    var sent: seq<Byte>
    var room: nat

    constructor (room: nat)
      ensures sent == [] && this.room == room
    {
      this.sent, this.room := [], room;
    }

    method Write(data: seq<Byte>) returns (ok: bool)
      modifies this
      ensures ok == (|data| <= old(room))
      ensures sent == old(sent) + data[..Min(|data|, old(room))] && room == old(room) - Min(|data|, old(room))
    {
      var n := Min(|data|, room);
      sent, room, ok := sent + data[..n], room - n, n == |data|;
    }
  }

  /** The receiving end. */
  class Reader {
    var rest: seq<Byte>

    constructor (bytes: seq<Byte>)
      ensures rest == bytes
    {
      rest := bytes;
    }

    /** io.ReadFull */
    method ReadFull(n: nat) returns (data: Option<seq<Byte>>)
      modifies this
      ensures if n <= |old(rest)| then data == Some(old(rest)[..n]) && rest == old(rest)[n..] else data.None?
    {
      if n <= |rest| {
        data := Some(rest[..n]);
        rest := rest[n..];
      } else {
        data, rest := None, [];
      }
    }
  }

  /** WriteJSON */
  method WriteHeader<F>(w: Writer, codec: Codec<F>, header: Header<F>) returns (ok: bool)
    modifies w
    ensures var data := codec.marshal(header);
            if |data| > MAX_HEADER then !ok && w.sent == old(w.sent) && w.room == old(w.room)
            else Delivers(old(w.sent), old(w.room), BigEndian(|data|) + data, w.sent, w.room, ok)
  {
    var data := codec.marshal(header);
    if |data| > MAX_HEADER {
      return false;
    }
    hide BigEndian;
    ok := w.Write(BigEndian(|data|));
    if ok {
      ok := w.Write(data);
    }
  }

  /** All of the bytes went out, or as many as there was room for. */
  ghost predicate Delivers(sent: seq<Byte>, room: nat, bytes: seq<Byte>, sent': seq<Byte>, room': nat, ok: bool) {
    && ok == (|bytes| <= room) && sent' == sent + bytes[..Min(|bytes|, room)] && room' == room - Min(|bytes|, room)
  }

  /** WriteRequest and WriteResponse, which differ in the limit. */
  method WriteMessage<F>(w: Writer, codec: Codec<F>, fields: F, data: seq<Byte>, limit: nat) returns (ok: bool)
    modifies w
    ensures var message := Message(codec, fields, data, limit);
            if message.None? then !ok && w.sent == old(w.sent) && w.room == old(w.room)
            else Delivers(old(w.sent), old(w.room), message.value, w.sent, w.room, ok)
  {
    if |data| > limit {
      return false;
    }
    var (payload, encoding, rawLength) := EncodePayload(codec, data);
    ok := WriteHeader(w, codec, Header(fields, |payload|, encoding, rawLength));
    if ok && payload != [] {
      ok := w.Write(payload);
    }
  }

  /** ReadRequest and ReadResponse. */
  method ReadMessage<F>(r: Reader, codec: Codec<F>, limit: nat) returns (message: Option<(Header<F>, seq<Byte>)>)
    modifies r
    ensures var parsed := Parse(codec, old(r.rest), limit);
            if parsed.None? then message.None?
            else message == Some((parsed.value.header, parsed.value.data)) && r.rest == parsed.value.rest
  {
    var header := ReadHeader(r, codec);
    if header.None? {
      return None;
    }
    var data := ReadPayload(r, codec, header.value, limit);
    if data.None? {
      return None;
    }
    return Some((header.value, data.value));
  }

  /** ReadJSON */
  method ReadHeader<F>(r: Reader, codec: Codec<F>) returns (header: Option<Header<F>>)
    modifies r
    ensures var parsed := ParseHeader(codec, old(r.rest));
            if parsed.None? then header.None? else header == Some(parsed.value.0) && r.rest == parsed.value.1
  {
    var size := r.ReadFull(4);
    if size.None? {
      return None;
    }
    var length := Number(size.value);
    if length == 0 || length > MAX_HEADER {
      return None;
    }
    var data := r.ReadFull(length);
    if data.None? {
      return None;
    }
    assert old(r.rest)[4..][..length] == old(r.rest)[4..4 + length];
    assert old(r.rest)[4..][length..] == old(r.rest)[4 + length..];
    header := codec.unmarshal(data.value);
  }

  /** readPayload and decodePayload */
  method ReadPayload<F>(r: Reader, codec: Codec<F>, header: Header<F>, limit: nat) returns (data: Option<seq<Byte>>)
    modifies r
    ensures var parsed := ParsePayload(codec, header, old(r.rest), limit);
            if parsed.None? then data.None? else data == Some(parsed.value.0) && r.rest == parsed.value.1
  {
    hide DecodePayload;
    if header.dataLength < 0 || header.dataLength > limit {
      return None;
    }
    var payload := Some([]);
    if header.dataLength != 0 {
      payload := r.ReadFull(header.dataLength);
    }
    if payload.None? {
      return None;
    }
    data := DecodePayload(codec, payload.value, header.dataEncoding, header.rawDataLength, limit);
  }
}
