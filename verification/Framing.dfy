/** The wire format of the transports: a printer, and readers fed by an arbitrary schedule of chunks
    and timeouts (LSP 3.17 "Base Protocol", Header Part; and one JSON object per line for MCP). */
module Framing {
  import opened Options
  import opened Sequences

  type byte = b: int | 0 <= b < 256

  const LF: byte := 10
  const CR: byte := 13

  /** What `json.loads` makes of a body. */
  datatype Loaded<+M> = NotJson | NotObject | Object(message: M)

  /** The serialiser: `json.dumps` to characters and `json.loads` from bytes. */
  datatype Codec<!M> = Codec(dumps: M -> string, loads: seq<byte> -> Loaded<M>)

  predicate IsAscii(s: string) {
    forall c <- s :: (c as int) < 128
  }

  /** The serialiser's contract: escaped to ASCII, never empty, and read back as written. */
  ghost predicate Faithful<M(!new)>(codec: Codec<M>) {
    forall m :: IsAscii(codec.dumps(m)) && codec.dumps(m) != "" && codec.loads(Encode(codec.dumps(m))) == Object(m)
  }

  // ----- characters and bytes -----------------------------------------------------------------

  function Utf8(c: char): (bytes: seq<byte>)
    ensures |bytes| >= 1
    ensures |bytes| == 1 <==> (c as int) < 128
  {
    var n := c as int;
    if n < 0x80 then [n]
    else if n < 0x800 then [0xC0 + n / 0x40, 0x80 + n % 0x40]
    else if n < 0x10000 then [0xE0 + n / 0x1000, 0x80 + n / 0x40 % 0x40, 0x80 + n % 0x40]
    else [0xF0 + n / 0x40000, 0x80 + n / 0x1000 % 0x40, 0x80 + n / 0x40 % 0x40, 0x80 + n % 0x40]
  }

  function Encode(s: string): (bytes: seq<byte>)
    ensures |bytes| >= |s|
  {
    if s == "" then [] else Utf8(s[0]) + Encode(s[1..])
  }

  function Low(b: byte, lead: int): int {
    (b as int) - lead
  }

  predicate IsContinuation(b: byte) {
    0x80 <= b < 0xC0
  }

  /** The shortest sequence of bytes that stands for the number `n` (section 3 of RFC 3629). */
  predicate StandsFor(b: seq<byte>, n: int) {
    && 1 <= |b| <= 4 && (forall i :: 1 <= i < |b| ==> IsContinuation(b[i]))
    && (|b| == 1 ==> n == b[0] < 0x80)
    && (|b| == 2 ==> 0xC0 <= b[0] < 0xE0 && n == Low(b[0], 0xC0) * 64 + Low(b[1], 0x80) >= 0x80)
    && (|b| == 3 ==> 0xE0 <= b[0] < 0xF0
                     && n == Low(b[0], 0xE0) * 4096 + Low(b[1], 0x80) * 64 + Low(b[2], 0x80) >= 0x800)
    && (|b| == 4 ==> 0xF0 <= b[0] < 0xF8
                     && n == Low(b[0], 0xF0) * 262144 + Low(b[1], 0x80) * 4096 + Low(b[2], 0x80) * 64
                             + Low(b[3], 0x80) >= 0x10000)
  }

  lemma SixBitsEach(n: nat)
    ensures n == n / 0x40 * 0x40 + n % 0x40
    ensures n == n / 0x1000 * 0x1000 + n / 0x40 % 0x40 * 0x40 + n % 0x40
    ensures n == n / 0x40000 * 0x40000 + n / 0x1000 % 0x40 * 0x1000 + n / 0x40 % 0x40 * 0x40 + n % 0x40
  {
    assert n / 0x1000 == n / 0x40 / 0x40 && n / 0x40000 == n / 0x1000 / 0x40;
  }

  /** Every character reads back from its bytes. */
  lemma Utf8ReadsBack(c: char)
    ensures StandsFor(Utf8(c), c as int)
  {
    SixBitsEach(c as int);
  }

  /** Counting characters counts bytes exactly when the text is ASCII. */
  lemma {:induction false} CharactersAreBytes(s: string)
    ensures |Encode(s)| == |s| <==> IsAscii(s)
    ensures IsAscii(s) ==> forall i :: 0 <= i < |s| ==> Encode(s)[i] == s[i] as int
  {
    if s != "" {
      CharactersAreBytes(s[1..]);
      assert s == [s[0]] + s[1..];
      assert s[0] in s && (forall c <- s[1..] :: c in s) && forall c <- s :: c == s[0] || c in s[1..];
    }
  }

  /** The bytes of an ASCII literal. */
  function Ascii(s: string): seq<byte> {
    seq(|s|, i requires 0 <= i < |s| => (s[i] as int) % 128)
  }

  predicate IsDigits(s: seq<byte>) {
    forall i :: 0 <= i < |s| ==> 48 <= s[i] <= 57
  }

  function Decimal(n: nat): (digits: seq<byte>)
    ensures digits != [] && IsDigits(digits)
  {
    if n < 10 then [48 + n] else Decimal(n / 10) + [48 + n % 10]
  }

  function DecimalValue(digits: seq<byte>): nat
    requires IsDigits(digits)
  {
    if digits == [] then 0
    else DecimalValue(digits[..|digits| - 1]) * 10 + (digits[|digits| - 1] - 48)
  }

  lemma {:induction false} DecimalReadsBack(n: nat)
    ensures DecimalValue(Decimal(n)) == n
  {
    if n >= 10 {
      DecimalReadsBack(n / 10);
      assert Decimal(n)[..|Decimal(n)| - 1] == Decimal(n / 10);
    } else {
      assert DecimalValue([48 + n][..0]) == 0;
    }
  }

  // ----- lines ----------------------------------------------------------------------------------

  /** Length of the first line with its newline, or of everything when there is no newline. */
  function LineLength(s: seq<byte>): (n: nat)
    ensures n <= |s| && (s != [] ==> n > 0)
    ensures forall i :: 0 <= i < n - 1 ==> s[i] != LF
    ensures n < |s| ==> s[n - 1] == LF
    ensures LF in s <==> n > 0 && s[n - 1] == LF
  {
    if s == [] then 0 else if s[0] == LF then 1 else 1 + LineLength(s[1..])
  }

  predicate IsLine(l: seq<byte>) {
    l != [] && l[|l| - 1] == LF && forall i :: 0 <= i < |l| - 1 ==> l[i] != LF
  }

  predicate IsSpace(b: byte) {
    b == 32 || 9 <= b <= 13
  }

  predicate IsBlank(line: seq<byte>) {
    forall b <- line :: IsSpace(b)
  }

  const PREFIX := Ascii("Content-Length: ")

  /** The number in a line that is exactly `Content-Length: <digits>` and CR LF. */
  function AnnouncedLength(line: seq<byte>): Option<nat> {
    var p := |PREFIX|;
    if |line| > p + 2 && line[..p] == PREFIX && line[|line| - 2..] == [CR, LF]
       && IsDigits(line[p..|line| - 2])
    then Some(DecimalValue(line[p..|line| - 2]))
    else None
  }

  function Announcement(n: nat): seq<byte> {
    PREFIX + Decimal(n) + [CR, LF]
  }

  lemma AnnouncementReadsBack(n: nat)
    ensures AnnouncedLength(Announcement(n)) == Some(n)
    ensures IsLine(Announcement(n))
  {
    DecimalReadsBack(n);
    var line := Announcement(n);
    assert line[|PREFIX|..|line| - 2] == Decimal(n);
  }

  // ----- what a reader makes of a byte stream ---------------------------------------------------

  function Decoded<M>(loads: seq<byte> -> Loaded<M>, body: seq<byte>): seq<M> {
    match loads(body)
    case Object(m) => [m]
    case _ => []
  }

  /** The messages in a stream that ends after `s`, when a body of `pending` bytes was announced. */
  function Deliver<M>(loads: seq<byte> -> Loaded<M>, s: seq<byte>, pending: nat): seq<M>
    decreases |s|
  {
    if s == [] then []
    else
      var line, rest := s[..LineLength(s)], s[LineLength(s)..];
      if pending == 0 then Deliver(loads, rest, AnnouncedOrZero(line))
      else if !IsBlank(line) then Deliver(loads, rest, pending)
      else if |rest| < pending then []
      else Decoded(loads, rest[..pending]) + Deliver(loads, rest[pending..], 0)
  }

  /** A frame with header lines anywhere: lines that announce nothing before the announcement, and
      lines that are not blank between it and the blank line. */
  datatype Frame = Frame(before: seq<seq<byte>>, announcement: seq<byte>, after: seq<seq<byte>>,
                         blank: seq<byte>, body: seq<byte>)

  predicate WellFormed(f: Frame) {
    && (forall l <- f.before :: IsLine(l) && (AnnouncedLength(l) == None || AnnouncedLength(l) == Some(0)))
    && IsLine(f.announcement) && AnnouncedLength(f.announcement) == Some(|f.body|) && f.body != []
    && (forall l <- f.after :: IsLine(l) && !IsBlank(l))
    && IsLine(f.blank) && IsBlank(f.blank)
  }

  function Tail(f: Frame): seq<byte> {
    Concat(f.after) + f.blank + f.body
  }

  function Bytes(f: Frame): seq<byte> {
    Concat(f.before) + f.announcement + Tail(f)
  }

  /** How many packets lie entirely within the first `k` bytes of their concatenation. */
  function Complete(packets: seq<seq<byte>>, k: nat): (n: nat)
    ensures n <= |packets|
    ensures k == |Concat(packets)| ==> n == |packets|
  {
    if packets == [] || k < |packets[0]| then 0 else 1 + Complete(packets[1..], k - |packets[0]|)
  }

  /** A stretch of bytes that delivers `output` once it is there entirely, and nothing before. */
  ghost predicate IsPacket<M>(loads: seq<byte> -> Loaded<M>, packet: seq<byte>, output: seq<M>) {
    && (forall rest :: Deliver(loads, packet + rest, 0) == output + Deliver(loads, rest, 0))
    && (forall k :: 0 <= k < |packet| ==> Deliver(loads, packet[..k], 0) == [])
  }

  predicate NoNewline(s: seq<byte>) {
    forall i :: 0 <= i < |s| ==> s[i] != LF
  }

  lemma LineComesFirst(l: seq<byte>, rest: seq<byte>)
    requires IsLine(l)
    ensures LineLength(l + rest) == |l|
    ensures (l + rest)[..|l|] == l && (l + rest)[|l|..] == rest
  {
    var n := LineLength(l + rest);
    assert (l + rest)[|l| - 1] == LF;
    assert n > 0 && (l + rest)[n - 1] == LF;
  }

  function AnnouncedOrZero(line: seq<byte>): nat {
    match AnnouncedLength(line) case Some(n) => n case None => 0
  }

  lemma ReadHeaderLine<M>(loads: seq<byte> -> Loaded<M>, l: seq<byte>, rest: seq<byte>, pending: nat)
    requires IsLine(l) && (pending == 0 || !IsBlank(l))
    ensures Deliver(loads, l + rest, pending) ==
            Deliver(loads, rest, if pending == 0 then AnnouncedOrZero(l) else pending)
  {
    LineComesFirst(l, rest);
  }

  lemma ReadBody<M>(loads: seq<byte> -> Loaded<M>, blank: seq<byte>, body: seq<byte>, rest: seq<byte>)
    requires IsLine(blank) && IsBlank(blank) && body != []
    ensures Deliver(loads, blank + (body + rest), |body|) == Decoded(loads, body) + Deliver(loads, rest, 0)
  {
    LineComesFirst(blank, body + rest);
    assert (body + rest)[..|body|] == body && (body + rest)[|body|..] == rest;
  }

  lemma ReadCutBody<M>(loads: seq<byte> -> Loaded<M>, blank: seq<byte>, part: seq<byte>, pending: nat)
    requires IsLine(blank) && IsBlank(blank) && |part| < pending
    ensures Deliver(loads, blank + part, pending) == []
  {
    LineComesFirst(blank, part);
  }

  lemma NothingWithoutNewline<M>(loads: seq<byte> -> Loaded<M>, s: seq<byte>, pending: nat)
    requires NoNewline(s)
    ensures Deliver(loads, s, pending) == []
  {
    if s != [] {
      assert LineLength(s) == |s|;
      assert s[..|s|] == s && s[|s|..] == [];
    }
  }

  /** Cutting inside the first line leaves no newline; cutting later leaves the line whole. */
  lemma CutAt(l: seq<byte>, rest: seq<byte>, k: nat)
    requires IsLine(l) && k <= |l| + |rest|
    ensures k < |l| ==> NoNewline((l + rest)[..k])
    ensures k >= |l| ==> (l + rest)[..k] == l + rest[..k - |l|]
  {
  }

  /** After the announcement: the rest of the header and the body, cut after `k` bytes. */
  lemma {:induction false} CutTail<M>(loads: seq<byte> -> Loaded<M>, f: Frame, k: nat)
    requires WellFormed(f) && k < |Tail(f)|
    ensures Deliver(loads, Tail(f)[..k], |f.body|) == []
    decreases |f.after|
  {
    if f.after == [] {
      assert Tail(f) == f.blank + f.body;
      CutAt(f.blank, f.body, k);
      if k < |f.blank| {
        NothingWithoutNewline(loads, Tail(f)[..k], |f.body|);
      } else {
        ReadCutBody(loads, f.blank, f.body[..k - |f.blank|], |f.body|);
      }
    } else {
      var l, g := f.after[0], f.(after := f.after[1..]);
      assert IsLine(l) && Tail(f) == l + Tail(g);
      CutAt(l, Tail(g), k);
      if k < |l| {
        NothingWithoutNewline(loads, Tail(f)[..k], |f.body|);
      } else {
        ReadHeaderLine(loads, l, Tail(g)[..k - |l|], |f.body|);
        CutTail(loads, g, k - |l|);
      }
    }
  }

  lemma {:induction false} WholeTail<M>(loads: seq<byte> -> Loaded<M>, f: Frame, rest: seq<byte>)
    requires WellFormed(f)
    ensures Deliver(loads, Tail(f) + rest, |f.body|) == Decoded(loads, f.body) + Deliver(loads, rest, 0)
    decreases |f.after|
  {
    if f.after == [] {
      assert Tail(f) + rest == f.blank + (f.body + rest);
      ReadBody(loads, f.blank, f.body, rest);
    } else {
      var l, g := f.after[0], f.(after := f.after[1..]);
      assert IsLine(l) && Tail(f) + rest == l + (Tail(g) + rest);
      ReadHeaderLine(loads, l, Tail(g) + rest, |f.body|);
      WholeTail(loads, g, rest);
    }
  }

  lemma CutAnnounced<M>(loads: seq<byte> -> Loaded<M>, f: Frame, k: nat)
    requires WellFormed(f) && k < |f.announcement + Tail(f)|
    ensures Deliver(loads, (f.announcement + Tail(f))[..k], 0) == []
  {
    var l := f.announcement;
    CutAt(l, Tail(f), k);
    if k < |l| {
      NothingWithoutNewline(loads, (l + Tail(f))[..k], 0);
    } else {
      ReadHeaderLine(loads, l, Tail(f)[..k - |l|], 0);
      CutTail(loads, f, k - |l|);
    }
  }

  /** A cut inside the first line leaves nothing; a later one leaves the rest. */
  lemma CutLine<M>(loads: seq<byte> -> Loaded<M>, l: seq<byte>, rest: seq<byte>, k: nat)
    requires IsLine(l) && k <= |l| + |rest| && AnnouncedOrZero(l) == 0
    ensures Deliver(loads, (l + rest)[..k], 0) == if k < |l| then [] else Deliver(loads, rest[..k - |l|], 0)
  {
    CutAt(l, rest, k);
    if k < |l| {
      NothingWithoutNewline(loads, (l + rest)[..k], 0);
    } else {
      ReadHeaderLine(loads, l, rest[..k - |l|], 0);
    }
  }

  predicate IsPreamble(lines: seq<seq<byte>>) {
    forall i :: 0 <= i < |lines| ==> IsLine(lines[i]) && AnnouncedOrZero(lines[i]) == 0
  }

  lemma ConcatThen(lines: seq<seq<byte>>, rest: seq<byte>)
    requires lines != []
    ensures Concat(lines) + rest == lines[0] + (Concat(lines[1..]) + rest)
    ensures |Concat(lines)| == |lines[0]| + |Concat(lines[1..])|
  {
    Associative(lines[0], Concat(lines[1..]), rest);
  }

  lemma {:induction false} CutPreamble<M>(loads: seq<byte> -> Loaded<M>, lines: seq<seq<byte>>, rest: seq<byte>, k: nat)
    requires IsPreamble(lines) && k <= |Concat(lines)| + |rest|
    ensures Deliver(loads, (Concat(lines) + rest)[..k], 0) ==
            if k < |Concat(lines)| then [] else Deliver(loads, rest[..k - |Concat(lines)|], 0)
  {
    if lines == [] {
      assert Concat(lines) + rest == rest;
    } else {
      ConcatThen(lines, rest);
      CutLine(loads, lines[0], Concat(lines[1..]) + rest, k);
      if k >= |lines[0]| {
        CutPreamble(loads, lines[1..], rest, k - |lines[0]|);
      }
    }
  }

  lemma CutFrame<M>(loads: seq<byte> -> Loaded<M>, f: Frame, k: nat)
    requires WellFormed(f) && k < |Bytes(f)|
    ensures Deliver(loads, Bytes(f)[..k], 0) == []
  {
    var rest := f.announcement + Tail(f);
    assert Bytes(f) == Concat(f.before) + rest;
    assert forall i :: 0 <= i < |f.before| ==> f.before[i] in f.before;
    CutPreamble(loads, f.before, rest, k);
    if k >= |Concat(f.before)| {
      CutAnnounced(loads, f, k - |Concat(f.before)|);
    }
  }

  lemma {:induction false} WholeFrame<M>(loads: seq<byte> -> Loaded<M>, f: Frame, rest: seq<byte>)
    requires WellFormed(f)
    ensures Deliver(loads, Bytes(f) + rest, 0) == Decoded(loads, f.body) + Deliver(loads, rest, 0)
    decreases |f.before|
  {
    if f.before == [] {
      assert Bytes(f) + rest == f.announcement + (Tail(f) + rest);
      ReadHeaderLine(loads, f.announcement, Tail(f) + rest, 0);
      WholeTail(loads, f, rest);
    } else {
      var l, g := f.before[0], f.(before := f.before[1..]);
      assert IsLine(l) && Bytes(f) + rest == l + (Bytes(g) + rest);
      ReadHeaderLine(loads, l, Bytes(g) + rest, 0);
      WholeFrame(loads, g, rest);
    }
  }

  lemma CutFirst<M>(loads: seq<byte> -> Loaded<M>, first: seq<byte>, output: seq<M>, later: seq<byte>, k: nat)
    requires IsPacket(loads, first, output) && k <= |first| + |later|
    ensures Deliver(loads, (first + later)[..k], 0) ==
            if k < |first| then [] else output + Deliver(loads, later[..k - |first|], 0)
  {
    if k < |first| {
      assert (first + later)[..k] == first[..k];
    } else {
      assert (first + later)[..k] == first + later[..k - |first|];
    }
  }

  lemma ConcatFirst<T>(parts: seq<seq<T>>, n: nat)
    requires 0 < n <= |parts|
    ensures Concat(parts[..n]) == parts[0] + Concat(parts[1..][..n - 1])
  {
    assert parts[..n][1..] == parts[1..][..n - 1];
  }

  lemma {:induction false} CutPackets<M>(loads: seq<byte> -> Loaded<M>, packets: seq<seq<byte>>,
                                         outputs: seq<seq<M>>, k: nat)
    requires |packets| == |outputs|
    requires forall i :: 0 <= i < |packets| ==> IsPacket(loads, packets[i], outputs[i])
    requires k <= |Concat(packets)|
    ensures Deliver(loads, Concat(packets)[..k], 0) == Concat(outputs[..Complete(packets, k)])
  {
    if packets != [] {
      var first, later := packets[0], Concat(packets[1..]);
      CutFirst(loads, first, outputs[0], later, k);
      if k >= |first| {
        CutPackets(loads, packets[1..], outputs[1..], k - |first|);
        ConcatFirst(outputs, Complete(packets, k));
      }
    }
  }

  lemma FrameIsPacket<M>(loads: seq<byte> -> Loaded<M>, f: Frame)
    requires WellFormed(f)
    ensures IsPacket(loads, Bytes(f), Decoded(loads, f.body))
  {
    forall rest ensures Deliver(loads, Bytes(f) + rest, 0) == Decoded(loads, f.body) + Deliver(loads, rest, 0) {
      WholeFrame(loads, f, rest);
    }
    forall k | 0 <= k < |Bytes(f)| ensures Deliver(loads, Bytes(f)[..k], 0) == [] {
      CutFrame(loads, f, k);
    }
  }

  function FrameBytes(frames: seq<Frame>): seq<seq<byte>> {
    seq(|frames|, i requires 0 <= i < |frames| => Bytes(frames[i]))
  }

  function FrameOutputs<M>(loads: seq<byte> -> Loaded<M>, frames: seq<Frame>): seq<seq<M>> {
    seq(|frames|, i requires 0 <= i < |frames| => Decoded(loads, frames[i].body))
  }

  /** Resynchronisation: whatever header lines the frames carry and wherever the stream is cut, the
      reader delivers the JSON objects among the bodies of the complete frames, in order. */
  lemma CutStream<M>(loads: seq<byte> -> Loaded<M>, frames: seq<Frame>, k: nat)
    requires forall f <- frames :: WellFormed(f)
    requires k <= |Concat(FrameBytes(frames))|
    ensures Deliver(loads, Concat(FrameBytes(frames))[..k], 0) ==
            Concat(FrameOutputs(loads, frames[..Complete(FrameBytes(frames), k)]))
  {
    forall i | 0 <= i < |frames|
      ensures IsPacket(loads, FrameBytes(frames)[i], FrameOutputs(loads, frames)[i])
    {
      FrameIsPacket(loads, frames[i]);
    }
    CutPackets(loads, FrameBytes(frames), FrameOutputs(loads, frames), k);
    var n := Complete(FrameBytes(frames), k);
    assert FrameOutputs(loads, frames)[..n] == FrameOutputs(loads, frames[..n]);
  }

  // ----- what the transports send ---------------------------------------------------------------

  const CONTENT_TYPE := "Content-Type: " + "application/" + "vscode-jsonrpc" + "; charset=utf-8"
  const CONTENT_TYPE_LINE := Ascii(CONTENT_TYPE) + [CR, LF]

  /** `send`: the header announces the number of characters of the body. */
  function Send<M>(codec: Codec<M>, m: M): seq<byte> {
    Announcement(|codec.dumps(m)|) + CONTENT_TYPE_LINE + [CR, LF] + Encode(codec.dumps(m))
  }

  /** What goes over the wire, byte for byte: the length of the body in bytes, the type of the content, a blank line,
      and the body. */
  lemma SentBytesAre<M(!new)>(codec: Codec<M>, m: M)
    requires Faithful(codec)
    ensures var body := Encode(codec.dumps(m));
            && IsAscii(codec.dumps(m)) && |body| == |codec.dumps(m)|
            && Send(codec, m) ==
               Ascii("Content-Length: ") + Decimal(|body|) + [13, 10]
               + Ascii("Content-Type: " + "application/" + "vscode-jsonrpc" + "; charset=utf-8") + [13, 10]
               + [13, 10] + body
  {
    CharactersAreBytes(codec.dumps(m));
    var n := |codec.dumps(m)|;
    assert Announcement(n) == Ascii("Content-Length: ") + Decimal(n) + [13, 10];
    var type' := Ascii("Content-Type: " + "application/" + "vscode-jsonrpc" + "; charset=utf-8");
    assert CONTENT_TYPE_LINE == type' + [13, 10];
    Associative(Announcement(n), type', [13, 10]);
  }

  /** A line announces a length exactly if it is this text, digits of that value, and the end of the line. */
  lemma AnnouncedIff(line: seq<byte>, n: nat)
    ensures AnnouncedLength(line) == Some(n) <==> exists digits: seq<byte> :: AnnouncesAs(line, digits, n)
  {
    var p := |PREFIX|;
    if AnnouncedLength(line) == Some(n) {
      var digits := line[p..|line| - 2];
      assert line == line[..p] + digits + line[|line| - 2..];
      assert AnnouncesAs(line, digits, n);
    }
    if digits: seq<byte> :| AnnouncesAs(line, digits, n) {
      assert line[..p] == PREFIX && line[p..|line| - 2] == digits && line[|line| - 2..] == [CR, LF];
    }
  }

  predicate AnnouncesAs(line: seq<byte>, digits: seq<byte>, n: nat) {
    && digits != [] && IsDigits(digits) && DecimalValue(digits) == n
    && line == Ascii("Content-Length: ") + digits + [13, 10]
  }

  function Sends<M>(codec: Codec<M>, ms: seq<M>): seq<seq<byte>> {
    seq(|ms|, i requires 0 <= i < |ms| => Send(codec, ms[i]))
  }

  function SentFrame<M>(codec: Codec<M>, m: M): Frame {
    Frame([], Announcement(|codec.dumps(m)|), [CONTENT_TYPE_LINE], [CR, LF], Encode(codec.dumps(m)))
  }

  predicate IsHeaderText(s: string) {
    forall c <- s :: (c as int) < 128 && c != '\n'
  }

  lemma ContentTypeIsHeaderLine()
    ensures IsLine(CONTENT_TYPE_LINE) && !IsBlank(CONTENT_TYPE_LINE)
  {
    ContentTypeIsText();
    assert |CONTENT_TYPE| > 0 && CONTENT_TYPE[0] == 'C';
    TextLine(CONTENT_TYPE);
  }

  lemma TextLine(s: string)
    requires IsHeaderText(s) && s != "" && s[0] == 'C'
    ensures IsLine(Ascii(s) + [CR, LF]) && !IsBlank(Ascii(s) + [CR, LF])
  {
    var line := Ascii(s) + [CR, LF];
    forall i | 0 <= i < |s| ensures line[i] != LF {
      assert s[i] in s;
    }
    assert line[0] == 67 && line[0] in line;
  }

  lemma ContentTypeIsText()
    ensures IsHeaderText(CONTENT_TYPE)
  {
    assert IsHeaderText("Content-Type: ") && IsHeaderText("application/");
    assert IsHeaderText("vscode-jsonrpc") && IsHeaderText("; charset=utf-8");
  }

  lemma SimpleFrame(announcement: seq<byte>, line: seq<byte>, body: seq<byte>)
    requires IsLine(announcement) && AnnouncedLength(announcement) == Some(|body|) && body != []
    requires IsLine(line) && !IsBlank(line)
    ensures var f := Frame([], announcement, [line], [CR, LF], body);
            WellFormed(f) && Bytes(f) == announcement + line + [CR, LF] + body
  {
    var f := Frame([], announcement, [line], [CR, LF], body);
    assert Concat([line]) == line + Concat([]) && Concat(f.before) == [];
    assert Tail(f) == line + [CR, LF] + body;
  }

  lemma SendIsFrame<M(!new)>(codec: Codec<M>, m: M)
    requires Faithful(codec)
    ensures WellFormed(SentFrame(codec, m)) && Bytes(SentFrame(codec, m)) == Send(codec, m)
    ensures Decoded(codec.loads, SentFrame(codec, m).body) == [m]
  {
    var text := codec.dumps(m);
    CharactersAreBytes(text);
    AnnouncementReadsBack(|text|);
    ContentTypeIsHeaderLine();
    SimpleFrame(Announcement(|text|), CONTENT_TYPE_LINE, Encode(text));
  }

  lemma SendIsPacket<M(!new)>(codec: Codec<M>, m: M)
    requires Faithful(codec)
    ensures Send(codec, m) != [] && IsPacket(codec.loads, Send(codec, m), [m])
  {
    SendIsFrame(codec, m);
    FrameIsPacket(codec.loads, SentFrame(codec, m));
  }

  lemma {:induction false} ConcatSingletons<M>(ms: seq<M>)
    ensures Concat(seq(|ms|, i requires 0 <= i < |ms| => [ms[i]])) == ms
  {
    if ms != [] {
      ConcatSingletons(ms[1..]);
      assert seq(|ms|, i requires 0 <= i < |ms| => [ms[i]])[1..]
          == seq(|ms| - 1, i requires 0 <= i < |ms| - 1 => [ms[1..][i]]);
    }
  }

  /** Cutting the concatenated output of `send` at any byte yields exactly the messages sent entirely
      before the cut; the whole output yields all of them. */
  lemma SendRoundTrip<M(!new)>(codec: Codec<M>, ms: seq<M>, k: nat)
    requires Faithful(codec) && k <= |Concat(Sends(codec, ms))|
    ensures Deliver(codec.loads, Concat(Sends(codec, ms))[..k], 0) == ms[..Complete(Sends(codec, ms), k)]
    ensures k == |Concat(Sends(codec, ms))| ==> Complete(Sends(codec, ms), k) == |ms|
  {
    var packets := Sends(codec, ms);
    var outputs := seq(|ms|, i requires 0 <= i < |ms| => [ms[i]]);
    forall i | 0 <= i < |ms|
      ensures packets[i] != [] && IsPacket(codec.loads, packets[i], outputs[i])
    {
      SendIsPacket(codec, ms[i]);
    }
    CutPackets(codec.loads, packets, outputs, k);
    var n := Complete(packets, k);
    ConcatSingletons(ms[..n]);
    assert outputs[..n] == seq(n, i requires 0 <= i < n => [ms[..n][i]]);
  }

  // ----- newline framing --------------------------------------------------------------------------

  function Strip(s: seq<byte>): seq<byte> {
    if s != [] && IsSpace(s[0]) then Strip(s[1..])
    else if s != [] && IsSpace(s[|s| - 1]) then Strip(s[..|s| - 1])
    else s
  }

  function DeliverLines<M>(loads: seq<byte> -> Loaded<M>, s: seq<byte>): seq<M>
    decreases |s|
  {
    if s == [] then []
    else
      var line := Strip(s[..LineLength(s)]);
      (if line == [] then [] else Decoded(loads, line)) + DeliverLines(loads, s[LineLength(s)..])
  }

  function SendLine<M>(codec: Codec<M>, m: M): seq<byte> {
    Encode(codec.dumps(m)) + [LF]
  }

  function SendLines<M>(codec: Codec<M>, ms: seq<M>): seq<seq<byte>> {
    seq(|ms|, i requires 0 <= i < |ms| => SendLine(codec, ms[i]))
  }

  /** The serialiser's contract for this framing: one line of text that starts and ends with something
      other than a space, and no part of it cut short is a JSON object. */
  ghost predicate LineFaithful<M(!new)>(codec: Codec<M>) {
    forall m ::
      var body := Encode(codec.dumps(m));
      && body != [] && !IsSpace(body[0]) && !IsSpace(body[|body| - 1]) && NoNewline(body)
      && codec.loads(body) == Object(m)
      && forall k :: 0 < k < |body| ==> Decoded(codec.loads, Strip(body[..k])) == []
  }

  /** How many bodies lie entirely within the first `k` bytes, their newline aside. */
  function CompleteBodies(lines: seq<seq<byte>>, k: nat): (n: nat)
    ensures n <= |lines|
    ensures k == |Concat(lines)| ==> n == |lines|
  {
    if lines == [] || k + 1 < |lines[0]| then 0
    else if k < |lines[0]| then 1
    else 1 + CompleteBodies(lines[1..], k - |lines[0]|)
  }

  /** A line that delivers `m` as soon as all of it but the newline is there, and nothing before. */
  ghost predicate IsMessageLine<M>(deliver: seq<byte> -> seq<M>, line: seq<byte>, m: M) {
    && |line| > 1
    && (forall rest :: deliver(line + rest) == [m] + deliver(rest))
    && (forall k :: 0 <= k < |line| ==> deliver(line[..k]) == if k == |line| - 1 then [m] else [])
  }

  lemma StripOfLine(body: seq<byte>)
    requires body != [] && !IsSpace(body[0]) && !IsSpace(body[|body| - 1])
    ensures Strip(body) == body && Strip(body + [LF]) == body
  {
    assert (body + [LF])[..|body|] == body;
    assert IsSpace(LF);
  }

  /** What the first line of a stream contributes. */
  lemma ReadJsonLine<M>(loads: seq<byte> -> Loaded<M>, line: seq<byte>, rest: seq<byte>)
    requires IsLine(line) || (NoNewline(line) && line != [] && rest == [])
    ensures DeliverLines(loads, line + rest) ==
            (if Strip(line) == [] then [] else Decoded(loads, Strip(line))) + DeliverLines(loads, rest)
  {
    if IsLine(line) {
      LineComesFirst(line, rest);
    } else {
      assert line + rest == line;
      assert LineLength(line) == |line| && line[..|line|] == line;
    }
  }

  lemma FinishedLine<M(!new)>(codec: Codec<M>, m: M, rest: seq<byte>)
    requires LineFaithful(codec)
    ensures DeliverLines(codec.loads, SendLine(codec, m) + rest) == [m] + DeliverLines(codec.loads, rest)
  {
    StripOfLine(Encode(codec.dumps(m)));
    ReadJsonLine(codec.loads, SendLine(codec, m), rest);
  }

  lemma UnfinishedLine<M(!new)>(codec: Codec<M>, m: M, k: nat)
    requires LineFaithful(codec) && k <= |Encode(codec.dumps(m))|
    ensures DeliverLines(codec.loads, Encode(codec.dumps(m))[..k]) ==
            if k == |Encode(codec.dumps(m))| then [m] else []
  {
    var body := Encode(codec.dumps(m));
    StripOfLine(body);
    assert body[..|body|] == body && body[..k] + [] == body[..k];
    if k > 0 {
      ReadJsonLine(codec.loads, body[..k], []);
    }
  }

  lemma {:induction false} CutLines<M>(deliver: seq<byte> -> seq<M>, lines: seq<seq<byte>>, ms: seq<M>, k: nat)
    requires |lines| == |ms| && k <= |Concat(lines)|
    requires forall i :: 0 <= i < |lines| ==> IsMessageLine(deliver, lines[i], ms[i])
    requires deliver([]) == []
    ensures deliver(Concat(lines)[..k]) == ms[..CompleteBodies(lines, k)]
  {
    if lines != [] {
      var first, later := lines[0], Concat(lines[1..]);
      if k < |first| {
        assert (first + later)[..k] == first[..k];
      } else {
        assert (first + later)[..k] == first + later[..k - |first|];
        CutLines(deliver, lines[1..], ms[1..], k - |first|);
        var n := CompleteBodies(lines[1..], k - |first|);
        assert [ms[0]] + ms[1..][..n] == ms[..n + 1];
      }
    }
  }

  /** In this framing a message counts as soon as its body is there: a stream cut just before a newline
      still delivers that message, because the reader takes the last, unfinished line as it is. */
  lemma LinesRoundTrip<M(!new)>(codec: Codec<M>, ms: seq<M>, k: nat)
    requires LineFaithful(codec) && k <= |Concat(SendLines(codec, ms))|
    ensures DeliverLines(codec.loads, Concat(SendLines(codec, ms))[..k]) == ms[..CompleteBodies(SendLines(codec, ms), k)]
    ensures k == |Concat(SendLines(codec, ms))| ==> CompleteBodies(SendLines(codec, ms), k) == |ms|
  {
    var deliver := (s: seq<byte>) => DeliverLines(codec.loads, s);
    forall i | 0 <= i < |ms|
      ensures IsMessageLine(deliver, SendLines(codec, ms)[i], ms[i])
    {
      SendLineIsMessageLine(codec, ms[i], deliver);
    }
    CutLines(deliver, SendLines(codec, ms), ms, k);
  }

  lemma SendLineIsMessageLine<M(!new)>(codec: Codec<M>, m: M, deliver: seq<byte> -> seq<M>)
    requires LineFaithful(codec) && forall s :: deliver(s) == DeliverLines(codec.loads, s)
    ensures IsMessageLine(deliver, SendLine(codec, m), m)
  {
    var body := Encode(codec.dumps(m));
    forall rest ensures DeliverLines(codec.loads, body + [LF] + rest) == [m] + DeliverLines(codec.loads, rest) {
      FinishedLine(codec, m, rest);
    }
    forall k | 0 <= k <= |body|
      ensures DeliverLines(codec.loads, (body + [LF])[..k]) == if k == |body| then [m] else []
    {
      assert (body + [LF])[..k] == body[..k];
      UnfinishedLine(codec, m, k);
    }
  }

  /** The two counts differ exactly when the cut falls between a body and its newline. */
  lemma {:induction false} BodyBeforeNewline(lines: seq<seq<byte>>, k: nat)
    requires k <= |Concat(lines)| && forall l <- lines :: |l| > 1
    ensures CompleteBodies(lines, k) == Complete(lines, k) +
              if Complete(lines, k) < |lines| && k + 1 == |Concat(lines[..Complete(lines, k) + 1])| then 1 else 0
  {
    if lines != [] {
      assert lines[..1] == [lines[0]] && Concat([lines[0]]) == lines[0] + Concat([]);
      if k >= |lines[0]| {
        var n := Complete(lines[1..], k - |lines[0]|);
        BodyBeforeNewline(lines[1..], k - |lines[0]|);
        if n + 1 < |lines| {
          assert lines[..n + 2][1..] == lines[1..][..n + 1];
        }
      }
    }
  }

  // ----- the readers ------------------------------------------------------------------------------

  /** What the event loop brings: some bytes, or the expiry of a read timeout. After the last arrival
      comes end of file. */
  datatype Arrival = Chunk(bytes: seq<byte>) | Tick

  function Payload(arrivals: seq<Arrival>): seq<byte> {
    if arrivals == [] then []
    else (if arrivals[0].Chunk? then arrivals[0].bytes else []) + Payload(arrivals[1..])
  }

  /** `asyncio.StreamReader`: a buffer that grows as chunks arrive. */
  class StreamReader {
    var buffer: seq<byte>
    var arrivals: seq<Arrival>

    function Rest(): seq<byte>
      reads this
    {
      buffer + Payload(arrivals)
    }

    constructor (arrivals: seq<Arrival>)
      ensures Rest() == Payload(arrivals)
    {
      this.buffer, this.arrivals := [], arrivals;
    }

    /** `readline`, possibly under `wait_for`: a timeout while waiting leaves the buffer as it is. */
    method ReadLine(timeout: bool) returns (timedOut: bool, line: seq<byte>)
      modifies this
      ensures timedOut ==> timeout && Rest() == old(Rest()) && |arrivals| < old(|arrivals|)
      ensures !timedOut ==>
                && line == old(Rest())[..LineLength(old(Rest()))]
                && Rest() == old(Rest())[LineLength(old(Rest()))..]
                && |arrivals| <= old(|arrivals|)
    {
      line := [];
      while LF !in buffer && arrivals != []
        invariant Rest() == old(Rest()) && |arrivals| <= old(|arrivals|)
        decreases |arrivals|
      {
        var next := arrivals[0];
        var before := buffer;
        var after := Payload(arrivals[1..]);
        arrivals := arrivals[1..];
        match next {
          case Chunk(bytes) =>
            buffer := buffer + bytes;
            assert before + (bytes + after) == (before + bytes) + after;
          case Tick =>
            assert [] + after == after;
            if timeout {
              return true, [];
            }
        }
      }
      LineOfBuffer(buffer, Payload(arrivals));
      var n := LineLength(buffer);
      line := buffer[..n];
      buffer := buffer[n..];
      return false, line;
    }

    /** `readexactly`: the next `n` bytes, or IncompleteReadError at the end of the stream. */
    method ReadExactly(n: nat) returns (complete: bool, bytes: seq<byte>)
      modifies this
      ensures complete <==> n <= |old(Rest())|
      ensures complete ==> bytes == old(Rest())[..n] && Rest() == old(Rest())[n..]
      ensures !complete ==> Rest() == []
      ensures |arrivals| <= old(|arrivals|)
    {
      while |buffer| < n && arrivals != []
        invariant Rest() == old(Rest()) && |arrivals| <= old(|arrivals|)
        decreases |arrivals|
      {
        var before := buffer;
        var after := Payload(arrivals[1..]);
        if arrivals[0].Chunk? {
          buffer := buffer + arrivals[0].bytes;
          assert before + (arrivals[0].bytes + after) == buffer + after;
        } else {
          assert [] + after == after;
        }
        arrivals := arrivals[1..];
      }
      if |buffer| < n {
        buffer := [];
        return false, [];
      }
      bytes := buffer[..n];
      assert (buffer + Payload(arrivals))[n..] == buffer[n..] + Payload(arrivals);
      buffer := buffer[n..];
      return true, bytes;
    }
  }

  lemma LineOfBuffer(buffer: seq<byte>, later: seq<byte>)
    requires LF in buffer || later == []
    ensures var n := LineLength(buffer);
            && LineLength(buffer + later) == n
            && (buffer + later)[..n] == buffer[..n] && (buffer + later)[n..] == buffer[n..] + later
  {
    var n := LineLength(buffer);
    if LF in buffer {
      var line := buffer[..n];
      assert IsLine(line);
      assert buffer + later == line + (buffer[n..] + later);
      LineComesFirst(line, buffer[n..] + later);
    } else {
      assert buffer + later == buffer;
    }
  }

  /** The Content-Length reader of the transports: the stdio server polls with a timeout, the TCP server
      and the subprocess client do not. Chunking and timeouts do not matter. */
  method ReadMessages<M>(reader: StreamReader, loads: seq<byte> -> Loaded<M>, timeout: bool) returns (delivered: seq<M>)
    modifies reader
    ensures delivered == Deliver(loads, old(reader.Rest()), 0)
  {
    var contentLength := 0;
    delivered := [];
    while true
      invariant delivered + Deliver(loads, reader.Rest(), contentLength) == Deliver(loads, old(reader.Rest()), 0)
      decreases |reader.Rest()| + |reader.arrivals|
    {
      ghost var s, before := reader.Rest(), delivered;
      var timedOut, header := reader.ReadLine(timeout);
      if timedOut {
        continue;
      }
      if header == [] {
        break;
      }
      if contentLength == 0 {
        var announced := AnnouncedLength(header);
        if announced.Some? {
          contentLength := announced.value;
        }
        continue;
      }
      if IsBlank(header) {
        ghost var n := contentLength;
        var complete, body := reader.ReadExactly(contentLength);
        contentLength := 0;
        if !complete {
          continue;
        }
        var message := loads(body);
        if message.Object? {
          delivered := delivered + [message.message];
        }
        NextBody(loads, s, n, before, delivered);
      }
    }
  }

  lemma NextBody<M>(loads: seq<byte> -> Loaded<M>, s: seq<byte>, n: nat, before: seq<M>, after: seq<M>)
    requires s != [] && n > 0 && IsBlank(s[..LineLength(s)]) && n <= |s[LineLength(s)..]|
    requires after == before + Decoded(loads, s[LineLength(s)..][..n])
    ensures before + Deliver(loads, s, n) == after + Deliver(loads, s[LineLength(s)..][n..], 0)
  {
    BodyNext(loads, s, n);
  }

  /** A blank line after the announcement, and the whole body after it. */
  lemma BodyNext<M>(loads: seq<byte> -> Loaded<M>, s: seq<byte>, n: nat)
    requires s != [] && n > 0 && IsBlank(s[..LineLength(s)]) && n <= |s[LineLength(s)..]|
    ensures Deliver(loads, s, n) ==
            Decoded(loads, s[LineLength(s)..][..n]) + Deliver(loads, s[LineLength(s)..][n..], 0)
  {
  }

  function Filter<M>(p: M -> bool, ms: seq<M>): seq<M> {
    if ms == [] then [] else (if p(ms[0]) then [ms[0]] else []) + Filter(p, ms[1..])
  }

  lemma {:induction false} FilterConcat<M>(p: M -> bool, a: seq<M>, b: seq<M>)
    ensures Filter(p, a + b) == Filter(p, a) + Filter(p, b)
  {
    if a == [] {
      assert a + b == b;
    } else {
      assert (a + b)[0] == a[0] && (a + b)[1..] == a[1..] + b;
      FilterConcat(p, a[1..], b);
      Associative(if p(a[0]) then [a[0]] else [], Filter(p, a[1..]), Filter(p, b));
    }
  }

  /** A decoder that also drops what `p` rejects. */
  function Restrict<M>(loads: seq<byte> -> Loaded<M>, p: M -> bool): seq<byte> -> Loaded<M> {
    body => match loads(body)
            case Object(m) => if p(m) then Object(m) else NotObject
            case other => other
  }

  /** Dropping messages while reading is filtering what is delivered. */
  lemma {:induction false} RestrictedIsFiltered<M>(loads: seq<byte> -> Loaded<M>, p: M -> bool, s: seq<byte>,
                                                   pending: nat)
    ensures Deliver(Restrict(loads, p), s, pending) == Filter(p, Deliver(loads, s, pending))
    decreases |s|
  {
    if s != [] {
      var line, rest := s[..LineLength(s)], s[LineLength(s)..];
      if pending == 0 {
        RestrictedIsFiltered(loads, p, rest, AnnouncedOrZero(line));
      } else if !IsBlank(line) {
        RestrictedIsFiltered(loads, p, rest, pending);
      } else if pending <= |rest| {
        RestrictedIsFiltered(loads, p, rest[pending..], 0);
        FilterConcat(p, Decoded(loads, rest[..pending]), Deliver(loads, rest[pending..], 0));
        FilterOne(loads, p, rest[..pending]);
      }
    }
  }

  lemma FilterOne<M>(loads: seq<byte> -> Loaded<M>, p: M -> bool, body: seq<byte>)
    ensures Filter(p, Decoded(loads, body)) == Decoded(Restrict(loads, p), body)
  {
    assert loads(body).Object? ==> Decoded(loads, body)[1..] == [];
  }

  /** The messages, by number, that answer a synchronous request, or the others. */
  function Picked<M>(all: seq<M>, answers: (nat, M) -> bool, yes: bool): seq<M> {
    if all == [] then []
    else
      var n := |all| - 1;
      Picked(all[..n], answers, yes) + (if answers(n, all[n]) == yes then [all[n]] else [])
  }

  lemma PickedMore<M>(all: seq<M>, answers: (nat, M) -> bool, yes: bool, m: M)
    ensures Picked(all + [m], answers, yes) ==
            Picked(all, answers, yes) + (if answers(|all|, m) == yes then [m] else [])
  {
    assert (all + [m])[..|all|] == all;
  }

  /** No message is lost between the two, and none is in both. */
  lemma {:induction false} PickedIsSplit<M>(all: seq<M>, answers: (nat, M) -> bool)
    ensures multiset(Picked(all, answers, true)) + multiset(Picked(all, answers, false)) == multiset(all)
  {
    if all != [] {
      PickedIsSplit(all[..|all| - 1], answers);
      assert all == all[..|all| - 1] + [all[|all| - 1]];
    }
  }

  /** The reader of `JsonRpcClient`. It tests each line for the end of the header even when that line
      is the announcement, and drops messages that are not of protocol version 2.0. A response to a synchronous
      request that is pending at that moment settles it; `answers` says so of the message and its number. */
  method ReadMessagesFromReader<M>(reader: StreamReader, loads: seq<byte> -> Loaded<M>, isVersion2: M -> bool,
                                   answers: (nat, M) -> bool)
    returns (queue: seq<M>, settled: seq<M>)
    modifies reader
    ensures var all := Filter(isVersion2, Deliver(loads, old(reader.Rest()), 0));
            queue == Picked(all, answers, false) && settled == Picked(all, answers, true)
  {
    RestrictedIsFiltered(loads, isVersion2, reader.Rest(), 0);
    ghost var accepts := Restrict(loads, isVersion2);
    ghost var whole, all: seq<M> := Deliver(accepts, reader.Rest(), 0), [];
    var contentLength := 0;
    var count := 0;
    queue, settled := [], [];
    while true
      invariant all + Deliver(accepts, reader.Rest(), contentLength) == whole
      invariant IsSplit(all, answers, count, queue, settled)
      decreases |reader.Rest()|
    {
      ghost var s, before, pending := reader.Rest(), all, contentLength;
      var _, header := reader.ReadLine(false);
      if header == [] {
        assert all + [] == all == whole;
        return;
      }
      if contentLength == 0 {
        var announced := AnnouncedLength(header);
        if announced.Some? {
          AnnouncementIsNotBlank(header);
          contentLength := announced.value;
        }
      }
      if contentLength != 0 && IsBlank(header) {
        ghost var n := contentLength;
        var complete, body := reader.ReadExactly(contentLength);
        contentLength := 0;
        if !complete {
          continue;
        }
        count, queue, settled := Dispatch(before, loads, isVersion2, answers, body, count, queue, settled);
        all := before + Decoded(accepts, body);
        NextBody(accepts, s, n, before, all);
      } else {
        HeaderNext(accepts, s, pending);
      }
    }
  }

  ghost predicate IsSplit<M>(all: seq<M>, answers: (nat, M) -> bool, count: nat, queue: seq<M>, settled: seq<M>) {
    count == |all| && queue == Picked(all, answers, false) && settled == Picked(all, answers, true)
  }

  /** What the next body does. */
  method Dispatch<M>(ghost before: seq<M>, loads: seq<byte> -> Loaded<M>, isVersion2: M -> bool,
                     answers: (nat, M) -> bool, body: seq<byte>, count: nat, queue: seq<M>, settled: seq<M>)
    returns (count': nat, queue': seq<M>, settled': seq<M>)
    requires IsSplit(before, answers, count, queue, settled)
    ensures IsSplit(before + Decoded(Restrict(loads, isVersion2), body), answers, count', queue', settled')
  {
    count', queue', settled' := count, queue, settled;
    var loaded := loads(body);
    if !loaded.Object? || !isVersion2(loaded.message) {
      assert before + [] == before;
      return;
    }
    var message := loaded.message;
    PickedMore(before, answers, false, message);
    PickedMore(before, answers, true, message);
    count' := count + 1;
    if answers(count, message) {
      settled' := settled + [message];
    } else {
      queue' := queue + [message];
    }
  }

  /** A line that leaves the reader in the header. */
  lemma HeaderNext<M>(loads: seq<byte> -> Loaded<M>, s: seq<byte>, pending: nat)
    requires s != []
    requires pending == 0 || !IsBlank(s[..LineLength(s)])
    ensures Deliver(loads, s, pending) ==
            Deliver(loads, s[LineLength(s)..], if pending == 0 then AnnouncedOrZero(s[..LineLength(s)]) else pending)
  {
  }

  lemma AnnouncementIsNotBlank(line: seq<byte>)
    requires AnnouncedLength(line).Some?
    ensures !IsBlank(line)
  {
    assert line[..|PREFIX|][0] == PREFIX[0] == 67;
    assert line[0] in line;
  }

  /** The reader for newline framing, polling with a timeout. */
  method ReadMessagesNewline<M>(reader: StreamReader, loads: seq<byte> -> Loaded<M>) returns (delivered: seq<M>)
    modifies reader
    ensures delivered == DeliverLines(loads, old(reader.Rest()))
  {
    delivered := [];
    while true
      invariant delivered + DeliverLines(loads, reader.Rest()) == DeliverLines(loads, old(reader.Rest()))
      decreases |reader.Rest()| + |reader.arrivals|
    {
      ghost var before := delivered;
      ghost var s := reader.Rest();
      var timedOut, line := reader.ReadLine(true);
      if timedOut {
        continue;
      }
      if line == [] {
        break;
      }
      line := Strip(line);
      if line != [] {
        var message := loads(line);
        if message.Object? {
          delivered := delivered + [message.message];
        }
      }
      NextLine(loads, s, before, delivered);
    }
  }

  lemma NextLine<M>(loads: seq<byte> -> Loaded<M>, s: seq<byte>, before: seq<M>, after: seq<M>)
    requires s != []
    requires var line := Strip(s[..LineLength(s)]);
             after == before + if line == [] then [] else Decoded(loads, line)
    ensures before + DeliverLines(loads, s) == after + DeliverLines(loads, s[LineLength(s)..])
  {
    var line, rest := Strip(s[..LineLength(s)]), s[LineLength(s)..];
    var output := if line == [] then [] else Decoded(loads, line);
    assert DeliverLines(loads, s) == output + DeliverLines(loads, rest);
    Associative(before, output, DeliverLines(loads, rest));
  }

  /** End to end: whatever the chunking and the timeouts, reading what was sent gives back the messages. */
  method SendThenRead<M(!new)>(codec: Codec<M>, ms: seq<M>, arrivals: seq<Arrival>, timeout: bool)
    returns (delivered: seq<M>)
    requires Faithful(codec) && Payload(arrivals) == Concat(Sends(codec, ms))
    ensures delivered == ms
  {
    var reader := new StreamReader(arrivals);
    EverythingSentIsDelivered(codec, ms);
    delivered := ReadMessages(reader, codec.loads, timeout);
  }

  lemma EverythingSentIsDelivered<M(!new)>(codec: Codec<M>, ms: seq<M>)
    requires Faithful(codec)
    ensures Deliver(codec.loads, Concat(Sends(codec, ms)), 0) == ms
  {
    var s := Concat(Sends(codec, ms));
    SendRoundTrip(codec, ms, |s|);
    assert s[..|s|] == s && ms[..|ms|] == ms;
  }
}
