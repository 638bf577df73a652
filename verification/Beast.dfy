/**
 Beast framing of Mode-S messages (agent/uat.go, agent/forward.go).

 A frame is the escape byte 0x1a, a type byte and a payload in which every 0x1a
 is doubled.  A receiver-identity frame (type 0xe3) carries 8 bytes, a short or
 long Mode-S frame (types 0x32, 0x33) carries 7 timestamp and signal bytes and a
 message of 7 or 14 bytes.
 */
module Beast {
  import opened Common

  const ESCAPE: byte := 0x1a
  const RECEIVER_ID: byte := 0xe3
  const SHORT: byte := 0x32
  const LONG: byte := 0x33
  /** Timestamp and signal level put in front of every message. */
  const HEADER: seq<byte> := [0, 0, 0, 0, 0, 0, 0x80]

  // ----- Encoding -----

  function Doubled(b: byte): seq<byte> {
    if b == ESCAPE then [b, b] else [b]
  }

  function Escaped(payload: seq<byte>): seq<byte> {
    if payload == [] then []
    else Doubled(payload[0]) + Escaped(payload[1..])
  }

  lemma {:induction false} EscapedConcat(a: seq<byte>, b: seq<byte>)
    ensures Escaped(a + b) == Escaped(a) + Escaped(b)
  {
    if a == [] {
      assert a + b == b;
    } else {
      var ab := a + b;
      assert ab[1..] == a[1..] + b;
      assert Escaped(ab) == Doubled(a[0]) + Escaped(ab[1..]);
      assert Escaped(a) == Doubled(a[0]) + Escaped(a[1..]);
      hide Escaped, Doubled;
      EscapedConcat(a[1..], b);
    }
  }

  lemma EscapedStep(payload: seq<byte>, i: nat)
    requires i < |payload|
    ensures Escaped(payload[..i + 1]) == Escaped(payload[..i]) + Doubled(payload[i])
  {
    EscapedConcat(payload[..i], [payload[i]]);
    assert payload[..i + 1] == payload[..i] + [payload[i]];
    assert Escaped([payload[i]]) == Doubled(payload[i]) + Escaped([]);
  }

  function Frame(typ: byte, payload: seq<byte>): seq<byte> {
    [ESCAPE, typ] + Escaped(payload)
  }

  function EscapeCount(payload: seq<byte>): nat {
    if payload == [] then 0 else (if payload[0] == ESCAPE then 1 else 0) + EscapeCount(payload[1..])
  }

  /** A frame is two bytes longer than its payload, plus one for each escape byte in it. */
  lemma {:induction false} FrameLength(typ: byte, payload: seq<byte>)
    ensures |Frame(typ, payload)| == 2 + |payload| + EscapeCount(payload)
  {
    if payload != [] {
      FrameLength(typ, payload[1..]);
    }
  }

  /** The frame that names the receiver; nothing for an identity that is not 8 bytes long. */
  method BeastReceiverFrame(receiverID: seq<byte>) returns (frame: seq<byte>)
    ensures frame == if |receiverID| == 8 then Frame(RECEIVER_ID, receiverID) else []
  {
    if |receiverID| != 8 {
      return [];
    }
    frame := [ESCAPE, RECEIVER_ID];
    assert Escaped(receiverID[..0]) == [];
    hide Escaped;
    for i := 0 to |receiverID|
      invariant frame == Frame(RECEIVER_ID, receiverID[..i])
    {
      var b := receiverID[i];
      frame := frame + [b];
      if b == ESCAPE {
        frame := frame + [ESCAPE];
      }
      EscapedStep(receiverID, i);
    }
    assert receiverID[..|receiverID|] == receiverID;
  }

  // ----- AVR text -----

  /** White space in the sense of Unicode, which line trimming removes. */
  predicate IsSpace(c: char) {
    || c in {'\t', '\n', '\U{B}', '\U{C}', '\r', ' ', '\U{85}', '\U{A0}', '\U{1680}', '\U{2028}', '\U{2029}',
        '\U{202F}', '\U{205F}', '\U{3000}'}
    || '\U{2000}' <= c <= '\U{200A}'
  }

  function TrimLeft(s: string): string {
    if s != [] && IsSpace(s[0]) then TrimLeft(s[1..]) else s
  }

  function TrimRight(s: string): string {
    if s != [] && IsSpace(s[|s| - 1]) then TrimRight(s[..|s| - 1]) else s
  }

  function HexDigit(c: char): Option<byte> {
    if '0' <= c <= '9' then Some(c as int - '0' as int)
    else if 'a' <= c <= 'f' then Some(c as int - 'a' as int + 10)
    else if 'A' <= c <= 'F' then Some(c as int - 'A' as int + 10)
    else None
  }

  /** Base16 in either case (section 8 of RFC 4648). */
  function HexDecode(s: string): Option<seq<byte>> {
    if s == [] then Some([])
    else if |s| == 1 || HexDigit(s[0]).None? || HexDigit(s[1]).None? then None
    else
      match HexDecode(s[2..])
      case None => None
      case Some(rest) => Nibbles(s[0], s[1]); Some([16 * HexDigit(s[0]).value + HexDigit(s[1]).value] + rest)
  }

  lemma Nibbles(hi: char, lo: char)
    requires HexDigit(hi).Some? && HexDigit(lo).Some?
    ensures 0 <= 16 * HexDigit(hi).value + HexDigit(lo).value < 256
  {
  }

  /** A line without white space around it, the leading `*` and the trailing `;`. */
  function Body(line: string): string {
    var t := TrimRight(TrimLeft(line));
    var u := if t != [] && t[0] == '*' then t[1..] else t;
    if u != [] && u[|u| - 1] == ';' then u[..|u| - 1] else u
  }

  predicate IsMessage(raw: seq<byte>) {
    |raw| == 7 || |raw| == 14
  }

  /** The raw message of an AVR line. */
  function Message(line: string): Option<seq<byte>> {
    match HexDecode(Body(line))
    case Some(raw) => if IsMessage(raw) then Some(raw) else None
    case None => None
  }

  function MessageFrame(raw: seq<byte>): seq<byte> {
    Frame(if |raw| == 14 then LONG else SHORT, HEADER + raw)
  }

  method AvrToBeast(line: string) returns (r: Option<seq<byte>>)
    ensures r == match Message(line) case Some(raw) => Some(MessageFrame(raw)) case None => None
  {
    hide HexDecode, Body;
    var decoded := HexDecode(Body(line));
    if decoded.None? || (|decoded.value| != 7 && |decoded.value| != 14) {
      return None;
    }
    var raw := decoded.value;
    var typ := if |raw| == 14 then LONG else SHORT;
    var payload := HEADER + raw;
    var out := [ESCAPE, typ];
    assert Escaped(payload[..0]) == [];
    hide Escaped;
    for i := 0 to |payload|
      invariant out == Frame(typ, payload[..i])
    {
      var b := payload[i];
      out := out + [b];
      if b == ESCAPE {
        out := out + [b];
      }
      EscapedStep(payload, i);
    }
    assert payload[..|payload|] == payload;
    return Some(out);
  }

  /** A hexadecimal spelling of `raw`, each digit in either case. */
  predicate Spells(s: string, raw: seq<byte>) {
    && |s| == 2 * |raw|
    && forall i :: 0 <= i < |raw| ==>
        HexDigit(s[2 * i]) == Some(raw[i] / 16) && HexDigit(s[2 * i + 1]) == Some(raw[i] % 16)
  }

  lemma {:induction false} HexDecodeIff(s: string, raw: seq<byte>)
    ensures HexDecode(s) == Some(raw) <==> Spells(s, raw)
  {
    if |s| >= 2 && raw != [] {
      HexDecodeIff(s[2..], raw[1..]);
      SpellsStep(s, raw);
      if HexDecode(s) == Some(raw) {
        assert HexDecode(s[2..]).value == raw[1..];
      }
      assert [raw[0]] + raw[1..] == raw;
    }
  }

  lemma SpellsStep(s: string, raw: seq<byte>)
    requires |s| >= 2 && raw != []
    ensures Spells(s, raw) <==>
            Spells(s[2..], raw[1..]) && HexDigit(s[0]) == Some(raw[0] / 16) && HexDigit(s[1]) == Some(raw[0] % 16)
  {
  }

  /** An AVR line is accepted exactly when its body spells a message, and then yields that message. */
  lemma AcceptedIff(line: string, raw: seq<byte>)
    ensures Message(line) == Some(raw) <==> IsMessage(raw) && Spells(Body(line), raw)
  {
    HexDecodeIff(Body(line), raw);
  }

  predicate Blank(s: string) {
    forall i :: 0 <= i < |s| ==> IsSpace(s[i])
  }

  lemma {:induction false} TrimLeftBlank(pad: string, s: string)
    requires Blank(pad) && s != [] && !IsSpace(s[0])
    ensures TrimLeft(pad + s) == s
  {
    if pad == [] {
      assert pad + s == s;
    } else {
      TrimLeftBlank(pad[1..], s);
      assert (pad + s)[1..] == pad[1..] + s;
    }
  }

  lemma {:induction false} TrimRightBlank(s: string, pad: string)
    requires Blank(pad) && s != [] && !IsSpace(s[|s| - 1])
    ensures TrimRight(s + pad) == s
  {
    if pad == [] {
      assert s + pad == s;
    } else {
      TrimRightBlank(s, pad[..|pad| - 1]);
      assert (s + pad)[..|s + pad| - 1] == s + pad[..|pad| - 1];
    }
  }

  /** The characters a line may have at its ends, if at all. */
  function Marked(hex: string, star: bool, semicolon: bool): string {
    (if star then "*" else "") + hex + if semicolon then ";" else ""
  }

  lemma BodyOfMarked(hex: string, star: bool, semicolon: bool)
    requires hex != [] && HexDigit(hex[0]).Some? && HexDigit(hex[|hex| - 1]).Some?
    ensures var core := Marked(hex, star, semicolon);
            && core != [] && !IsSpace(core[0]) && !IsSpace(core[|core| - 1])
            && var u := if core != [] && core[0] == '*' then core[1..] else core;
               (if u != [] && u[|u| - 1] == ';' then u[..|u| - 1] else u) == hex
  {
    var core := Marked(hex, star, semicolon);
    var u := if core[0] == '*' then core[1..] else core;
    assert u == hex + if semicolon then ";" else "";
  }

  lemma SpelledEnds(hex: string, raw: seq<byte>)
    requires Spells(hex, raw) && raw != []
    ensures hex != [] && HexDigit(hex[0]).Some? && HexDigit(hex[|hex| - 1]).Some?
  {
    var last := |raw| - 1;
    assert HexDigit(hex[2 * 0]) == Some(raw[0] / 16) && HexDigit(hex[2 * last + 1]) == Some(raw[last] % 16);
  }

  /**
   Every message has its lines: any spelling, with or without a `*` in front and a `;`
   behind, with any white space around, reads back.
   */
  lemma EveryMessageHasLines(raw: seq<byte>, hex: string, star: bool, semicolon: bool, before: string, after: string)
    requires IsMessage(raw) && Spells(hex, raw) && Blank(before) && Blank(after)
    ensures Message(before + Marked(hex, star, semicolon) + after) == Some(raw)
  {
    hide HexDecode;
    var core := Marked(hex, star, semicolon);
    SpelledEnds(hex, raw);
    BodyOfMarked(hex, star, semicolon);
    TrimLeftBlank(before, core + after);
    assert before + core + after == before + (core + after);
    TrimRightBlank(core, after);
    AcceptedIff(before + core + after, raw);
  }

  /** What the characters mean: the sixteen digits in either case, and white space by code point. */
  lemma CharactersSpelled(c: char)
    ensures forall v: byte :: HexDigit(c) == Some(v) <==>
              v < 16 && (c == "0123456789abcdef"[v] || c == "0123456789ABCDEF"[v])
    ensures IsSpace(c) <==>
            var n := c as int;
            || 9 <= n <= 13 || n in {32, 0x85, 0xA0, 0x1680, 0x2028, 0x2029, 0x202F, 0x205F, 0x3000}
            || 0x2000 <= n <= 0x200A
  {
  }

  /** The frames, byte for byte: what is escaped and how, the types, and the seven bytes in front of a message. */
  lemma FramesSpelled(id: seq<byte>, raw: seq<byte>, b: byte, rest: seq<byte>)
    ensures IsMessage(raw) <==> |raw| == 7 || |raw| == 14
    ensures Frame(RECEIVER_ID, id) == [0x1a, 0xe3] + Escaped(id)
    ensures |raw| == 7 ==> MessageFrame(raw) == [0x1a, 0x32] + Escaped([0, 0, 0, 0, 0, 0, 0x80] + raw)
    ensures |raw| == 14 ==> MessageFrame(raw) == [0x1a, 0x33] + Escaped([0, 0, 0, 0, 0, 0, 0x80] + raw)
    ensures Escaped([]) == [] && Escaped([b] + rest) == (if b == 0x1a then [0x1a, 0x1a] else [b]) + Escaped(rest)
  {
    assert ([b] + rest)[1..] == rest;
  }

  // ----- A reference decoder -----

  datatype Packet = Packet(typ: byte, payload: seq<byte>)

  function PayloadLength(typ: byte): Option<nat> {
    if typ == RECEIVER_ID then Some(8)
    else if typ == SHORT then Some(14)
    else if typ == LONG then Some(21)
    else None
  }

  /** Undoes the escaping of the first `n` payload bytes; none when the bytes end early or an escape stands alone. */
  function Unescape(s: seq<byte>, n: nat): Option<(seq<byte>, seq<byte>)>
    decreases n
  {
    if n == 0 then Some(([], s))
    else if s == [] || (s[0] == ESCAPE && (|s| == 1 || s[1] != ESCAPE)) then None
    else
      match Unescape(s[if s[0] == ESCAPE then 2 else 1..], n - 1)
      case Some((payload, rest)) => Some(([s[0]] + payload, rest))
      case None => None
  }

  /** One packet at the front of the bytes received, and what follows it. */
  function Receive(s: seq<byte>): Option<(Packet, seq<byte>)> {
    if |s| < 2 || s[0] != ESCAPE || PayloadLength(s[1]).None? then None
    else
      match Unescape(s[2..], PayloadLength(s[1]).value)
      case Some((payload, rest)) => Some((Packet(s[1], payload), rest))
      case None => None
  }

  lemma {:induction false} UnescapeShrinks(s: seq<byte>, n: nat)
    ensures Unescape(s, n).Some? ==> |Unescape(s, n).value.1| <= |s|
    decreases n
  {
    if n > 0 && s != [] && !(s[0] == ESCAPE && (|s| == 1 || s[1] != ESCAPE)) {
      UnescapeShrinks(s[if s[0] == ESCAPE then 2 else 1..], n - 1);
    }
  }

  /** All whole packets at the front of the bytes received. */
  function Decode(s: seq<byte>): seq<Packet>
    decreases |s|
  {
    match Receive(s)
    case None => []
    case Some((p, rest)) => UnescapeShrinks(s[2..], PayloadLength(s[1]).value); [p] + Decode(rest)
  }

  predicate WellFormed(p: Packet) {
    PayloadLength(p.typ) == Some(|p.payload|)
  }

  function Encode(ps: seq<Packet>): seq<byte> {
    if ps == [] then [] else Frame(ps[0].typ, ps[0].payload) + Encode(ps[1..])
  }

  lemma UnescapeStep(b: byte, tail: seq<byte>, n: nat)
    ensures Unescape(Doubled(b) + tail, n + 1) ==
            match Unescape(tail, n) case Some((payload, rest)) => Some(([b] + payload, rest)) case None => None
  {
  }

  lemma {:induction false} UnescapeEscaped(payload: seq<byte>, rest: seq<byte>)
    ensures Unescape(Escaped(payload) + rest, |payload|) == Some((payload, rest))
  {
    if payload == [] {
      assert Escaped(payload) + rest == rest;
    } else {
      var tail := Escaped(payload[1..]) + rest;
      UnescapeEscaped(payload[1..], rest);
      assert Escaped(payload) + rest == Doubled(payload[0]) + tail;
      hide Unescape, Escaped;
      UnescapeStep(payload[0], tail, |payload| - 1);
      assert [payload[0]] + payload[1..] == payload;
    }
  }

  lemma {:induction false} UnescapeCut(payload: seq<byte>, k: nat)
    requires k < |Escaped(payload)|
    ensures Unescape(Escaped(payload)[..k], |payload|) == None
  {
    var w := |Doubled(payload[0])|;
    assert Escaped(payload) == Doubled(payload[0]) + Escaped(payload[1..]);
    if k >= w {
      var tail := Escaped(payload[1..])[..k - w];
      UnescapeCut(payload[1..], k - w);
      UnescapeStep(payload[0], tail, |payload| - 1);
      assert Escaped(payload)[..k] == Doubled(payload[0]) + tail;
    }
  }

  lemma ReceiveFrame(p: Packet, rest: seq<byte>)
    requires WellFormed(p)
    ensures Receive(Frame(p.typ, p.payload) + rest) == Some((p, rest))
  {
    hide Unescape, Escaped;
    UnescapeEscaped(p.payload, rest);
    var s, body := Frame(p.typ, p.payload) + rest, Escaped(p.payload) + rest;
    assert s == [ESCAPE, p.typ] + body;
    assert s[2..] == body;
  }

  lemma ReceiveCut(p: Packet, k: nat)
    requires WellFormed(p) && k < |Frame(p.typ, p.payload)|
    ensures Receive(Frame(p.typ, p.payload)[..k]) == None
  {
    if k >= 2 {
      UnescapeCut(p.payload, k - 2);
      assert Frame(p.typ, p.payload)[..k][2..] == Escaped(p.payload)[..k - 2];
    }
  }

  // ----- What a receiver recovers -----

  /** Packets that were framed are recovered exactly, up to a tail that is not a whole packet. */
  lemma {:induction false} DecodeFramed(ps: seq<Packet>, tail: seq<byte>)
    requires (forall p :: p in ps ==> WellFormed(p)) && Receive(tail) == None
    ensures Decode(Encode(ps) + tail) == ps
  {
    hide WellFormed, Frame, Receive;
    if ps == [] {
      assert Encode(ps) + tail == tail;
    } else {
      var first, rest := Frame(ps[0].typ, ps[0].payload), Encode(ps[1..]) + tail;
      DecodeFramed(ps[1..], tail);
      ReceiveFrame(ps[0], rest);
      assert Encode(ps) + tail == first + rest;
    }
  }

  /** Cut at any byte, a stream still decodes to a prefix of the packets: no wrong packet is ever recovered. */
  lemma {:induction false} DecodeCut(ps: seq<Packet>, k: nat)
    requires (forall p :: p in ps ==> WellFormed(p)) && k <= |Encode(ps)|
    ensures Decode(Encode(ps)[..k]) <= ps
  {
    if ps != [] {
      hide Receive, Frame;
      var first := Frame(ps[0].typ, ps[0].payload);
      if k < |first| {
        ReceiveCut(ps[0], k);
        assert Encode(ps)[..k] == first[..k];
      } else {
        var rest := Encode(ps[1..])[..k - |first|];
        DecodeCut(ps[1..], k - |first|);
        ReceiveFrame(ps[0], rest);
        assert Encode(ps)[..k] == first + rest;
      }
    }
  }

  lemma {:induction false} EncodeConcat(a: seq<Packet>, b: seq<Packet>)
    ensures Encode(a + b) == Encode(a) + Encode(b)
  {
    if a == [] {
      assert a + b == b;
    } else {
      var ab := a + b;
      assert ab[1..] == a[1..] + b;
      assert Encode(ab) == Frame(a[0].typ, a[0].payload) + Encode(ab[1..]);
      assert Encode(a) == Frame(a[0].typ, a[0].payload) + Encode(a[1..]);
      hide Encode, Frame;
      EncodeConcat(a[1..], b);
    }
  }

  function MessagePacket(raw: seq<byte>): Packet {
    Packet(if |raw| == 14 then LONG else SHORT, HEADER + raw)
  }

  function MessageOf(line: string): seq<seq<byte>> {
    match Message(line)
    case Some(raw) => [raw]
    case None => []
  }

  /** The messages of the valid lines, in order. */
  function Messages(lines: seq<string>): seq<seq<byte>> {
    if lines == [] then []
    else MessageOf(lines[0]) + Messages(lines[1..])
  }

  lemma {:induction false} OnlyMessages(lines: seq<string>, i: nat)
    requires i < |Messages(lines)|
    ensures IsMessage(Messages(lines)[i])
  {
    if i >= |MessageOf(lines[0])| {
      OnlyMessages(lines[1..], i - |MessageOf(lines[0])|);
    }
  }

  function MessagePackets(ms: seq<seq<byte>>): seq<Packet> {
    seq(|ms|, i requires 0 <= i < |ms| => MessagePacket(ms[i]))
  }

  /** What one connection carries: the receiver identity, then the message of each valid line. */
  function Packets(id: seq<byte>, lines: seq<string>): seq<Packet> {
    [Packet(RECEIVER_ID, id)] + MessagePackets(Messages(lines))
  }

  function Stream(id: seq<byte>, lines: seq<string>): seq<byte> {
    Encode(Packets(id, lines))
  }

  lemma PacketsWellFormed(id: seq<byte>, lines: seq<string>)
    requires |id| == 8
    ensures forall p :: p in Packets(id, lines) ==> WellFormed(p)
  {
    forall i | 0 <= i < |Messages(lines)| ensures WellFormed(MessagePacket(Messages(lines)[i])) {
      OnlyMessages(lines, i);
    }
  }

  /** The stream of a connection decodes to the receiver identity and the raw messages of its valid lines. */
  lemma StreamDecodes(id: seq<byte>, lines: seq<string>)
    requires |id| == 8
    ensures Decode(Stream(id, lines)) == [Packet(RECEIVER_ID, id)] + MessagePackets(Messages(lines))
  {
    PacketsWellFormed(id, lines);
    DecodeFramed(Packets(id, lines), []);
    assert Stream(id, lines) + [] == Stream(id, lines);
  }

  /** Unique decodability: equal streams carry the same identity and the same messages. */
  lemma StreamInjective(id: seq<byte>, lines: seq<string>, id': seq<byte>, lines': seq<string>)
    requires |id| == |id'| == 8
    ensures Stream(id, lines) == Stream(id', lines') <==> id == id' && Messages(lines) == Messages(lines')
  {
    StreamDecodes(id, lines);
    StreamDecodes(id', lines');
    if Stream(id, lines) == Stream(id', lines') {
      var ps, ps' := Decode(Stream(id, lines)), Decode(Stream(id', lines'));
      assert ps[0].payload == id && ps'[0].payload == id';
      var ms, ms' := Messages(lines), Messages(lines');
      assert |ms| == |ps| - 1 == |ms'|;
      forall i | 0 <= i < |ms| ensures ms[i] == ms'[i] {
        assert ps[i + 1].payload == HEADER + ms[i] && ps'[i + 1].payload == HEADER + ms'[i];
        assert (HEADER + ms[i])[7..] == ms[i] && (HEADER + ms'[i])[7..] == ms'[i];
      }
    }
  }

  // ----- One connection of the UAT pipeline -----

  lemma {:induction false} MessagesConcat(a: seq<string>, b: seq<string>)
    ensures Messages(a + b) == Messages(a) + Messages(b)
  {
    hide MessageOf;
    if a == [] {
      assert a + b == b;
    } else {
      var ab := a + b;
      assert ab[1..] == a[1..] + b;
      assert Messages(ab) == MessageOf(a[0]) + Messages(ab[1..]);
      assert Messages(a) == MessageOf(a[0]) + Messages(a[1..]);
      hide Messages;
      MessagesConcat(a[1..], b);
    }
  }

  lemma PacketsConcat(id: seq<byte>, a: seq<string>, b: seq<string>)
    ensures Packets(id, a + b) == Packets(id, a) + MessagePackets(Messages(b))
  {
    hide Messages;
    MessagesConcat(a, b);
    var ms, ms' := Messages(a), Messages(b);
    assert MessagePackets(ms + ms') == MessagePackets(ms) + MessagePackets(ms');
  }

  lemma StreamOfPrefix(id: seq<byte>, lines: seq<string>, i: nat)
    requires i <= |lines|
    ensures Messages(lines[..i]) <= Messages(lines)
    ensures Stream(id, lines) == Encode(Packets(id, lines[..i])) + Encode(MessagePackets(Messages(lines[i..])))
  {
    hide Messages, Encode, MessagePackets, Packets;
    assert lines == lines[..i] + lines[i..];
    MessagesConcat(lines[..i], lines[i..]);
    PacketsConcat(id, lines[..i], lines[i..]);
    EncodeConcat(Packets(id, lines[..i]), MessagePackets(Messages(lines[i..])));
  }

  lemma StreamStart(id: seq<byte>, lines: seq<string>)
    ensures Encode([]) == [] && Messages(lines[..0]) == [] && Encode(Packets(id, lines[..0])) == Frame(RECEIVER_ID, id)
  {
  }

  lemma PacketsStep(id: seq<byte>, lines: seq<string>, i: nat)
    requires i < |lines|
    ensures Messages(lines[..i + 1]) == Messages(lines[..i]) + MessageOf(lines[i])
    ensures Encode(Packets(id, lines[..i + 1])) ==
            Encode(Packets(id, lines[..i])) +
                match Message(lines[i]) case Some(raw) => MessageFrame(raw) case None => []
  {
    assert Messages([lines[i]]) == MessageOf(lines[i]);
    assert lines[..i + 1] == lines[..i] + [lines[i]];
    MessagesConcat(lines[..i], [lines[i]]);
    PacketsConcat(id, lines[..i], [lines[i]]);
    OneMessage(lines[i]);
    hide Messages, Encode, MessagePackets, Packets, MessageFrame;
    EncodeConcat(Packets(id, lines[..i]), MessagePackets(MessageOf(lines[i])));
  }

  lemma OneMessage(line: string)
    ensures Encode(MessagePackets(MessageOf(line))) ==
        match Message(line) case Some(raw) => MessageFrame(raw) case None => []
  {
  }

  lemma OnlyAcceptedMessages(line: string)
    requires Message(line).Some?
    ensures IsMessage(Message(line).value)
  {
  }

  lemma BrokenReceiverFrame(id: seq<byte>, n: nat)
    requires |id| == 8 && n < |Frame(RECEIVER_ID, id)|
    ensures Decode(Frame(RECEIVER_ID, id)[..n]) == []
  {
    ReceiveCut(Packet(RECEIVER_ID, id), n);
  }

  lemma BrokenMessageFrame(id: seq<byte>, lines: seq<string>, raw: seq<byte>, n: nat)
    requires |id| == 8 && IsMessage(raw) && n < |MessageFrame(raw)|
    ensures Decode(Encode(Packets(id, lines)) + MessageFrame(raw)[..n]) == Packets(id, lines)
  {
    hide Decode, Encode, Packets, Receive;
    ReceiveCut(MessagePacket(raw), n);
    PacketsWellFormed(id, lines);
    DecodeFramed(Packets(id, lines), MessageFrame(raw)[..n]);
  }

  class Connection {
    /** Bytes the peer has taken, and how many more it takes before the connection breaks. */
    var sent: seq<byte>
    var room: nat
    /** Bytes reported to the server as fed. */
    var bytesFed: nat

    constructor (room: nat, bytesFed: nat)
      ensures sent == [] && this.room == room && this.bytesFed == bytesFed
    {
      sent, this.room, this.bytesFed := [], room, bytesFed;
    }

    method Write(p: seq<byte>) returns (n: nat, broken: bool)
      modifies `sent, `room
      ensures n == Min(|p|, old(room)) && broken == (n < |p|)
      ensures sent == old(sent) + p[..n] && room == old(room) - n
    {
      n := Min(|p|, room);
      sent, room, broken := sent + p[..n], room - n, n < |p|;
    }

    method CountingWrite(p: seq<byte>) returns (n: nat, broken: bool)
      modifies this
      ensures n == Min(|p|, old(room)) && broken == (n < |p|)
      ensures sent == old(sent) + p[..n] && room == old(room) - n && bytesFed == old(bytesFed) + n
    {
      n, broken := Write(p);
      if n > 0 {
        bytesFed := bytesFed + n;
      }
    }

    /**
     Runs one connection over the lines of the demodulator.  Wherever it breaks,
     the peer holds a prefix of the stream and decodes exactly the messages
     counted in `frames`; the bytes counted as fed are those behind the
     receiver frame.
     */
    method RunUAT(id: seq<byte>, lines: seq<string>) returns (broken: bool, frames: nat)
      requires |id| == 8 && sent == []
      modifies this
      ensures |sent| == Min(old(room), |Stream(id, lines)|) && sent == Stream(id, lines)[..|sent|]
      ensures broken <==> old(room) < |Stream(id, lines)|
      ensures frames <= |Messages(lines)| && (!broken ==> frames == |Messages(lines)|)
      ensures Decode(sent) == if |sent| < |Frame(RECEIVER_ID, id)| then []
                              else [Packet(RECEIVER_ID, id)] + MessagePackets(Messages(lines)[..frames])
      ensures bytesFed == old(bytesFed) +
                          if |sent| < |Frame(RECEIVER_ID, id)| then 0 else |sent| - |Frame(RECEIVER_ID, id)|
    {
      hide Encode, Decode, Messages, Message, Frame;
      var n;
      frames := 0;
      var receiver := BeastReceiverFrame(id);
      n, broken := Write(receiver);
      StreamStart(id, lines);
      StreamOfPrefix(id, lines, 0);
      if broken {
        BrokenReceiverFrame(id, n);
        assert sent == receiver[..n] == Stream(id, lines)[..n];
        return;
      }
      assert sent == Encode(Packets(id, lines[..0]));
      var i := 0;
      while i < |lines|
        invariant 0 <= i <= |lines| && !broken
        invariant sent == Encode(Packets(id, lines[..i])) && frames == |Messages(lines[..i])|
        invariant |sent| + room == old(room) && |sent| >= |receiver|
        invariant bytesFed == old(bytesFed) + |sent| - |receiver|
      {
        var frame := AvrToBeast(lines[i]);
        StreamOfPrefix(id, lines, i);
        StreamOfPrefix(id, lines, i + 1);
        PacketsStep(id, lines, i);
        if frame.Some? {
          ghost var before := sent;
          n, broken := CountingWrite(frame.value);
          if broken {
            var raw := Message(lines[i]).value;
            assert IsMessage(raw) by { OnlyAcceptedMessages(lines[i]); }
            BrokenMessageFrame(id, lines[..i], raw, n);
            assert Messages(lines)[..frames] == Messages(lines[..i]);
            assert Encode(Packets(id, lines[..i + 1])) == before + frame.value;
            return;
          }
          frames := frames + 1;
        }
        i := i + 1;
      }
      assert lines[..i] == lines;
      assert Messages(lines)[..frames] == Messages(lines);
      StreamDecodes(id, lines);
    }
  }
}
