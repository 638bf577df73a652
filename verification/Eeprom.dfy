/**
 The serial-number editor of an RTL2832U EEPROM image (agent/eeprom_windows.go).

 An image starts with the magic bytes 0x28 0x32.  From offset 9 it holds a chain
 of USB string descriptors (section 9.6.7 of the USB 2.0 specification), each
 `[length][0x03][UTF-16LE units]`: manufacturer, product and serial.  The strings
 area ends at offset 128.
 */
module Eeprom {
  import opened Common

  const EEPROM_SIZE: nat := 256
  const STRINGS_START: nat := 9
  const STRINGS_END: nat := 128
  const HAVE_SERIAL_OFFSET: nat := 6
  const HAVE_SERIAL: byte := 0xa5
  const STRING_DESCRIPTOR: byte := 0x03

  datatype Error =
    | NotAnImage
    | Truncated
    | BadDescriptor(offset: nat)
    | DoesNotFit(length: nat)
    | ReadFailed
    | WriteFailed
    | VerifyFailed

  datatype Strings = Strings(manufacturer: seq<byte>, product: seq<byte>, serial: seq<byte>)

  predicate HasMagic(d: seq<byte>) {
    |d| >= 2 && d[0] == 0x28 && d[1] == 0x32
  }

  // ----- Parsing -----

  /** The low bytes of the UTF-16LE units of a descriptor of `length` bytes at `pos`. */
  function Text(d: seq<byte>, pos: nat, length: nat): (s: seq<byte>)
    requires length >= 2 && pos + length <= |d|
  {
    seq((length - 2) / 2, i requires 0 <= i < (length - 2) / 2 => d[pos + 2 + 2 * i])
  }

  predicate DescriptorAt(d: seq<byte>, pos: nat) {
    pos + 1 < |d| && d[pos] >= 2 && d[pos + 1] == STRING_DESCRIPTOR && pos + d[pos] <= |d|
  }

  /** At most `k` descriptors, chained from `pos`, up to the first malformed one. */
  function Descriptors(d: seq<byte>, pos: nat, k: nat): seq<seq<byte>>
    decreases k
  {
    if k == 0 || !DescriptorAt(d, pos) then []
    else [Text(d, pos, d[pos])] + Descriptors(d, pos + d[pos], k - 1)
  }

  function Nth(found: seq<seq<byte>>, k: nat): seq<byte> {
    if k < |found| then found[k] else []
  }

  /** The three strings of an image; a missing one reads as the empty string. */
  function StringsOf(d: seq<byte>): Strings {
    if |d| < 10 || !HasMagic(d) then Strings([], [], [])
    else
      var found := Descriptors(d, STRINGS_START, 3);
      Strings(Nth(found, 0), Nth(found, 1), Nth(found, 2))
  }

  /** Collects the low bytes of one descriptor's units. */
  method ReadText(d: seq<byte>, pos: nat, length: nat) returns (sb: seq<byte>)
    requires length >= 2 && pos + length <= |d|
    ensures sb == Text(d, pos, length)
  {
    sb := [];
    var j := pos + 2;
    while j + 1 < pos + length
      invariant j == pos + 2 + 2 * |sb| && j <= pos + length
      invariant |sb| <= |Text(d, pos, length)| && sb == Text(d, pos, length)[..|sb|]
    {
      sb := sb + [d[j]];
      j := j + 2;
    }
  }

  lemma DescriptorsUnfold(d: seq<byte>, pos: nat, k: nat, out: seq<seq<byte>>)
    ensures k == 0 || !DescriptorAt(d, pos) ==> out + Descriptors(d, pos, k) == out
    ensures k > 0 && DescriptorAt(d, pos) ==>
              out + Descriptors(d, pos, k) == (out + [Text(d, pos, d[pos])]) + Descriptors(d, pos + d[pos], k - 1)
  {
  }

  /** Appends empty strings up to three. */
  method PadToThree(found: seq<seq<byte>>) returns (out: seq<seq<byte>>)
    requires |found| <= 3
    ensures |out| == 3 && out[0] == Nth(found, 0) && out[1] == Nth(found, 1) && out[2] == Nth(found, 2)
  {
    out := found;
    while |out| < 3
      invariant |found| <= |out| <= 3
      invariant forall i :: 0 <= i < |out| ==> out[i] == Nth(found, i)
    {
      out := out + [[]];
    }
  }

  method ParseEEPROMStrings(d: seq<byte>) returns (manu: seq<byte>, prod: seq<byte>, serial: seq<byte>)
    ensures Strings(manu, prod, serial) == StringsOf(d)
  {
    hide Descriptors, Text, Nth;
    if |d| < 10 || d[0] != 0x28 || d[1] != 0x32 {
      return [], [], [];
    }
    var pos: nat := STRINGS_START;
    var out: seq<seq<byte>> := [];
    var k := 0;
    assert [] + Descriptors(d, STRINGS_START, 3) == Descriptors(d, STRINGS_START, 3);
    while k < 3
      invariant 0 <= k <= 3 && |out| == k
      invariant Descriptors(d, STRINGS_START, 3) == out + Descriptors(d, pos, 3 - k)
    {
      DescriptorsUnfold(d, pos, 3 - k, out);
      if pos + 1 >= |d| {
        break;
      }
      var l := d[pos];
      if l < 2 || d[pos + 1] != STRING_DESCRIPTOR || pos + l > |d| {
        break;
      }
      var sb := ReadText(d, pos, l);
      out := out + [sb];
      pos := pos + l;
      k := k + 1;
    }
    DescriptorsUnfold(d, pos, 3 - k, out);
    out := PadToThree(out);
    return out[0], out[1], out[2];
  }

  // ----- Rewriting the serial -----

  /** The offset behind `k` chained descriptors; the editor does not check that each one ends inside the image. */
  function Skip(d: seq<byte>, pos: nat, k: nat): Result<nat, Error>
    decreases k
  {
    if k == 0 then Ok(pos)
    else if pos + 1 >= |d| then Err(Truncated)
    else if d[pos] < 2 || d[pos + 1] != STRING_DESCRIPTOR then Err(BadDescriptor(pos))
    else Skip(d, pos + d[pos], k - 1)
  }

  /** The offset of the serial descriptor. */
  function SerialStart(d: seq<byte>): Result<nat, Error> {
    Skip(d, STRINGS_START, 2)
  }

  function DescriptorLength(serial: seq<byte>): nat {
    2 + 2 * |serial|
  }

  /** Byte `i` of the image once the serial descriptor at `start` holds `serial`. */
  function RewrittenByte(orig: seq<byte>, start: nat, serial: seq<byte>, i: nat): byte
    requires start + DescriptorLength(serial) <= STRINGS_END <= |orig| && i < |orig|
  {
    if i == HAVE_SERIAL_OFFSET then HAVE_SERIAL
    else if i < start || STRINGS_END <= i then orig[i]
    else if i == start then DescriptorLength(serial)
    else if i == start + 1 then STRING_DESCRIPTOR
    else if i < start + DescriptorLength(serial) then
      if (i - start) % 2 == 0 then serial[(i - start) / 2 - 1] else 0
    else 0
  }

  function Rewritten(orig: seq<byte>, start: nat, serial: seq<byte>): (out: seq<byte>)
    requires start + DescriptorLength(serial) <= STRINGS_END <= |orig|
  {
    seq(|orig|, i requires 0 <= i < |orig| => RewrittenByte(orig, start, serial, i))
  }

  function SetSerial(orig: seq<byte>, serial: seq<byte>): Result<seq<byte>, Error> {
    if |orig| < STRINGS_END || !HasMagic(orig) then Err(NotAnImage)
    else if SerialStart(orig).Err? then Err(SerialStart(orig).error)
    else
      var start := SerialStart(orig).value;
      if |serial| == 0 || DescriptorLength(serial) > 254 || start + DescriptorLength(serial) > STRINGS_END
      then Err(DoesNotFit(|serial|))
      else Ok(Rewritten(orig, start, serial))
  }

  /** Walks past the manufacturer and the product. */
  method FindSerial(orig: seq<byte>) returns (r: Result<nat, Error>)
    ensures r == SerialStart(orig)
    ensures r.Ok? ==> STRINGS_START <= r.value
  {
    var pos: nat := STRINGS_START;
    var k := 0;
    while k < 2
      invariant 0 <= k <= 2 && STRINGS_START <= pos
      invariant SerialStart(orig) == Skip(orig, pos, 2 - k)
    {
      if pos + 1 >= |orig| {
        return Err(Truncated);
      }
      var l := orig[pos];
      if l < 2 || orig[pos + 1] != STRING_DESCRIPTOR {
        return Err(BadDescriptor(pos));
      }
      pos := pos + l;
      k := k + 1;
    }
    return Ok(pos);
  }

  /** Writes the bytes of a string as UTF-16LE units. */
  method WriteUnits(out: array<byte>, start: nat, serial: seq<byte>)
    requires start + 2 * |serial| <= out.Length
    modifies out
    ensures forall j :: 0 <= j < out.Length ==>
              out[j] ==
              if start <= j < start + 2 * |serial|
              then (if (j - start) % 2 == 0 then serial[(j - start) / 2] else 0)
              else old(out[j])
  {
    var i := 0;
    while i < |serial|
      invariant 0 <= i <= |serial|
      invariant forall j :: 0 <= j < out.Length ==>
                  out[j] ==
                  if start <= j < start + 2 * i
                  then (if (j - start) % 2 == 0 then serial[(j - start) / 2] else 0)
                  else old(out[j])
    {
      out[start + 2 * i] := serial[i];
      out[start + 2 * i + 1] := 0x00;
      i := i + 1;
    }
  }

  method ZeroFill(out: array<byte>, start: nat, end: nat)
    requires start <= end <= out.Length
    modifies out
    ensures forall j :: 0 <= j < out.Length ==> out[j] == if start <= j < end then 0 else old(out[j])
  {
    var i := start;
    while i < end
      invariant start <= i <= end
      invariant forall j :: 0 <= j < out.Length ==> out[j] == if start <= j < i then 0 else old(out[j])
    {
      out[i] := 0x00;
      i := i + 1;
    }
  }

  method SetEEPROMSerial(orig: seq<byte>, serial: seq<byte>) returns (r: Result<seq<byte>, Error>)
    ensures r == SetSerial(orig, serial)
  {
    if |orig| < STRINGS_END || orig[0] != 0x28 || orig[1] != 0x32 {
      return Err(NotAnImage);
    }
    var found := FindSerial(orig);
    if found.Err? {
      return Err(found.error);
    }
    var serStart := found.value;
    var dlen := 2 + 2 * |serial|;
    if |serial| == 0 || dlen > 254 || serStart + dlen > STRINGS_END {
      return Err(DoesNotFit(|serial|));
    }
    hide Skip;
    ghost var want := Rewritten(orig, serStart, serial);
    var out := new byte[|orig|](i requires 0 <= i < |orig| => orig[i]);
    out[HAVE_SERIAL_OFFSET] := HAVE_SERIAL;
    out[serStart] := dlen;
    out[serStart + 1] := STRING_DESCRIPTOR;
    WriteUnits(out, serStart + 2, serial);
    ZeroFill(out, serStart + dlen, STRINGS_END);
    assert out[..] == want;
    return Ok(out[..]);
  }

  // ----- What the editor promises about an image -----

  /** An accepted image holds two whole descriptors in front of its serial. */
  lemma TwoDescriptorsFirst(d: seq<byte>, start: nat)
    requires SerialStart(d) == Ok(start) && start <= |d|
    ensures DescriptorAt(d, STRINGS_START)
    ensures var p := STRINGS_START + d[STRINGS_START];
            DescriptorAt(d, p) && start == p + d[p] &&
            Descriptors(d, STRINGS_START, 3) ==
              [Text(d, STRINGS_START, d[STRINGS_START]), Text(d, p, d[p])] + Descriptors(d, start, 1)
  {
  }

  /** Only byte 6 and the bytes from the serial descriptor up to offset 128 may change. */
  lemma OnlySerialAreaChanges(orig: seq<byte>, serial: seq<byte>)
    requires SetSerial(orig, serial).Ok?
    ensures var out := SetSerial(orig, serial).value; var start := SerialStart(orig).value;
            && |out| == |orig| && STRINGS_START + 4 <= start
            && (forall i :: 0 <= i < |orig| && i != HAVE_SERIAL_OFFSET && !(start <= i < STRINGS_END) ==>
                out[i] == orig[i])
            && out == out[..STRINGS_END] + orig[STRINGS_END..]
  {
  }

  /** The walk to the serial descriptor sees the same bytes before and after an edit. */
  lemma SameSerialStart(orig: seq<byte>, serial: seq<byte>)
    requires SetSerial(orig, serial).Ok?
    ensures SerialStart(SetSerial(orig, serial).value) == SerialStart(orig)
  {
  }

  lemma SameText(d: seq<byte>, e: seq<byte>, pos: nat, length: nat)
    requires length >= 2 && pos + length <= |d| && |e| == |d|
    requires forall i :: pos <= i < pos + length ==> d[i] == e[i]
    ensures Text(d, pos, length) == Text(e, pos, length)
  {
  }

  lemma WrittenText(orig: seq<byte>, start: nat, serial: seq<byte>)
    requires STRINGS_START <= start && start + DescriptorLength(serial) <= STRINGS_END <= |orig|
    ensures var out := Rewritten(orig, start, serial);
            DescriptorAt(out, start) && out[start] == DescriptorLength(serial) && Descriptors(out, start, 1) == [serial]
  {
    var out := Rewritten(orig, start, serial);
    assert Text(out, start, out[start]) == serial;
    assert Descriptors(out, start + out[start], 0) == [];
  }

  /** The strings of an image whose serial descriptor is at `start`. */
  lemma StringsAround(d: seq<byte>, start: nat)
    requires |d| >= STRINGS_END && HasMagic(d) && SerialStart(d) == Ok(start) && start <= |d|
    ensures var p := STRINGS_START + d[STRINGS_START];
            && p < start && start == p + d[p] && d[STRINGS_START] >= 2 && d[p] >= 2
            && StringsOf(d) == Strings(Text(d, STRINGS_START, d[STRINGS_START]), Text(d, p, d[p]),
                                       Nth(Descriptors(d, start, 1), 0))
  {
    TwoDescriptorsFirst(d, start);
  }

  lemma EditedImage(orig: seq<byte>, serial: seq<byte>)
    requires SetSerial(orig, serial).Ok?
    ensures |orig| >= STRINGS_END && HasMagic(orig)
    ensures var (out, start) := (SetSerial(orig, serial).value, SerialStart(orig).value);
            && |out| == |orig| && HasMagic(out) && SerialStart(out) == SerialStart(orig) == Ok(start)
            && STRINGS_START + 4 <= start && start + DescriptorLength(serial) <= STRINGS_END
            && out == Rewritten(orig, start, serial)
            && (forall i :: STRINGS_START <= i < start ==> orig[i] == out[i])
  {
    SameSerialStart(orig, serial);
    OnlySerialAreaChanges(orig, serial);
  }

  /** Parsing an edited image gives the old manufacturer and product and exactly the new serial. */
  lemma RoundTrip(orig: seq<byte>, serial: seq<byte>)
    requires SetSerial(orig, serial).Ok?
    ensures StringsOf(SetSerial(orig, serial).value) == StringsOf(orig).(serial := serial)
  {
    hide Descriptors, Skip, Rewritten, RewrittenByte, SetSerial, Text, StringsOf, DescriptorAt;
    EditedImage(orig, serial);
    var (out, start) := (SetSerial(orig, serial).value, SerialStart(orig).value);
    StringsAround(orig, start);
    StringsAround(out, start);
    WrittenText(orig, start, serial);
    var p := STRINGS_START + orig[STRINGS_START];
    SameText(orig, out, STRINGS_START, orig[STRINGS_START]);
    SameText(orig, out, p, orig[p]);
  }

  /** Whether an edit succeeds depends on the image and the length of the serial only. */
  lemma SuccessIff(orig: seq<byte>, serial: seq<byte>)
    ensures SetSerial(orig, serial).Ok? <==>
            && |orig| >= STRINGS_END && HasMagic(orig)
            && SerialStart(orig).Ok? && 1 <= |serial| <= (STRINGS_END - 2 - SerialStart(orig).value) / 2
  {
  }

  // ----- Layout, written out -----

  /** The offset behind a descriptor. */
  function Behind(d: seq<byte>, pos: nat): nat
    requires pos < |d|
  {
    pos + d[pos]
  }

  /** A whole string descriptor: its length, the type 3, and the units inside the image. */
  predicate WholeAt(d: seq<byte>, pos: nat) {
    pos + 1 < |d| && d[pos] >= 2 && d[pos + 1] == 3 && pos + d[pos] <= |d|
  }

  /** Every other byte behind the two of the head. */
  function UnitsAt(d: seq<byte>, pos: nat): seq<byte>
    requires WholeAt(d, pos)
  {
    seq((d[pos] - 2) / 2, k requires 0 <= k < (d[pos] - 2) / 2 => d[pos + 2 + 2 * k])
  }

  /** The strings of the whole descriptors from offset 9 on, up to the first that is not whole, and three at most. */
  function FromNine(d: seq<byte>): seq<seq<byte>> {
    if !WholeAt(d, 9) then []
    else if !WholeAt(d, Behind(d, 9)) then [UnitsAt(d, 9)]
    else if !WholeAt(d, Behind(d, Behind(d, 9))) then [UnitsAt(d, 9), UnitsAt(d, Behind(d, 9))]
    else [UnitsAt(d, 9), UnitsAt(d, Behind(d, 9)), UnitsAt(d, Behind(d, Behind(d, 9)))]
  }

  lemma DescriptorsSpelled(d: seq<byte>)
    ensures Descriptors(d, 9, 3) == FromNine(d)
  {
    hide Descriptors, UnitsAt, DescriptorAt, Text;
    OneDescriptor(d, 9, 3);
    if WholeAt(d, 9) {
      var p := Behind(d, 9);
      OneDescriptor(d, p, 2);
      if WholeAt(d, p) {
        OneDescriptor(d, Behind(d, p), 1);
      }
    }
  }

  /**
   The strings of an image, without the chain: each is present only if its descriptor and those before it are
   whole.
   */
  lemma StringsSpelled(d: seq<byte>)
    ensures |d| < 10 || d[0] != 0x28 || d[1] != 0x32 ==> StringsOf(d) == Strings([], [], [])
    ensures |d| >= 10 && d[0] == 0x28 && d[1] == 0x32 ==>
              var found := FromNine(d);
              && StringsOf(d).manufacturer == (if |found| > 0 then found[0] else [])
              && StringsOf(d).product == (if |found| > 1 then found[1] else [])
              && StringsOf(d).serial == (if |found| > 2 then found[2] else [])
  {
    hide Descriptors, FromNine;
    DescriptorsSpelled(d);
  }

  lemma OneDescriptor(d: seq<byte>, pos: nat, k: nat)
    requires k > 0
    ensures Descriptors(d, pos, k) ==
            if WholeAt(d, pos) then [UnitsAt(d, pos)] + Descriptors(d, pos + d[pos], k - 1) else []
    ensures WholeAt(d, pos) ==> Descriptors(d, pos + d[pos], 0) == []
  {
  }

  /** When an edit succeeds, byte for byte: what the image must hold, and how long the serial may be. */
  predicate Editable(orig: seq<byte>, serial: seq<byte>) {
    && |orig| >= 128 && orig[0] == 0x28 && orig[1] == 0x32
    && orig[9] >= 2 && orig[10] == 3
    && var p := Behind(orig, 9);
       && p + 1 < |orig| && orig[p] >= 2 && orig[p + 1] == 3
       && 1 <= |serial| && Behind(orig, p) + 2 + 2 * |serial| <= 128
  }

  lemma EditSpelled(orig: seq<byte>, serial: seq<byte>)
    ensures SetSerial(orig, serial).Ok? <==> Editable(orig, serial)
    ensures Editable(orig, serial) ==>
              var out := SetSerial(orig, serial).value;
              var start := Behind(orig, Behind(orig, 9));
              && |out| == |orig| && out[6] == 0xa5 && out[start] == 2 + 2 * |serial| && out[start + 1] == 3
              && (forall k :: 0 <= k < |serial| ==> out[start + 2 + 2 * k] == serial[k] && out[start + 3 + 2 * k] == 0)
              && (forall i :: start + 2 + 2 * |serial| <= i < 128 ==> out[i] == 0)
              && (forall i :: 0 <= i < |orig| && i != 6 && !(start <= i < 128) ==> out[i] == orig[i])
  {
    if |orig| >= 128 {
      StartSpelled(orig);
    }
  }

  /** Where the serial descriptor starts, or why there is none. */
  lemma StartSpelled(orig: seq<byte>)
    requires |orig| >= 128
    ensures SerialStart(orig) ==
            if orig[9] < 2 || orig[10] != 3 then Err(BadDescriptor(9))
            else
              var p := Behind(orig, 9);
              if p + 1 >= |orig| then Err(Truncated)
              else if orig[p] < 2 || orig[p + 1] != 3 then Err(BadDescriptor(p))
              else Ok(Behind(orig, p))
  {
    var p := Behind(orig, 9);
    assert Skip(orig, 9, 2) == if orig[9] < 2 || orig[10] != 3 then Err(BadDescriptor(9)) else Skip(orig, p, 1);
    if p + 1 < |orig| && orig[p] >= 2 && orig[p + 1] == 3 {
      assert Skip(orig, p, 1) == Skip(orig, Behind(orig, p), 0);
    }
  }

  /** Which error an edit reports. */
  lemma EditErrors(orig: seq<byte>, serial: seq<byte>)
    requires SetSerial(orig, serial).Err?
    ensures var e := SetSerial(orig, serial).error;
            if |orig| < 128 || orig[0] != 0x28 || orig[1] != 0x32 then e == NotAnImage
            else if orig[9] < 2 || orig[10] != 3 then e == BadDescriptor(9)
            else
              var p := Behind(orig, 9);
              if p + 1 >= |orig| then e == Truncated
              else if orig[p] < 2 || orig[p + 1] != 3 then e == BadDescriptor(p)
              else e == DoesNotFit(|serial|)
  {
    if |orig| >= 128 {
      StartSpelled(orig);
    }
  }

  /** A second edit overwrites the first: the outcome, errors included, is that of editing the original. */
  lemma SecondEditWins(orig: seq<byte>, first: seq<byte>, second: seq<byte>)
    requires SetSerial(orig, first).Ok?
    ensures SetSerial(SetSerial(orig, first).value, second) == SetSerial(orig, second)
  {
    var out := SetSerial(orig, first).value;
    SameSerialStart(orig, first);
    if SetSerial(orig, second).Ok? {
      var start := SerialStart(orig).value;
      assert Rewritten(out, start, second) == Rewritten(orig, start, second);
    }
  }

  /** The serial area is laid out the way the editor itself would write it. */
  predicate Canonical(d: seq<byte>)
    requires |d| >= STRINGS_END && SerialStart(d).Ok?
  {
    var start := SerialStart(d).value;
    && d[HAVE_SERIAL_OFFSET] == HAVE_SERIAL
    && start + 4 <= STRINGS_END && d[start] % 2 == 0 && 4 <= d[start] && start + d[start] <= STRINGS_END
    && d[start + 1] == STRING_DESCRIPTOR
    && (forall i :: start + 2 <= i < start + d[start] && (i - start) % 2 == 1 ==> d[i] == 0)
    && (forall i :: start + d[start] <= i < STRINGS_END ==> d[i] == 0)
  }

  /** Re-encoding the parsed serial of a canonical image reproduces the image. */
  lemma CanonicalIsFixed(orig: seq<byte>)
    requires |orig| >= STRINGS_END && HasMagic(orig) && SerialStart(orig).Ok? && Canonical(orig)
    ensures SetSerial(orig, StringsOf(orig).serial) == Ok(orig)
  {
    var start := SerialStart(orig).value;
    TwoDescriptorsFirst(orig, start);
    var serial := Text(orig, start, orig[start]);
    assert Descriptors(orig, start, 1) == [serial];
    forall i | 0 <= i < |orig| ensures RewrittenByte(orig, start, serial, i) == orig[i] {
    }
    assert Rewritten(orig, start, serial) == orig;
  }

  lemma FixedIsCanonical(orig: seq<byte>, serial: seq<byte>)
    requires SetSerial(orig, serial) == Ok(orig)
    ensures Canonical(orig)
  {
  }

  /** Writing the old serial back restores every byte of exactly the canonical images. */
  lemma RestoreIff(orig: seq<byte>, serial: seq<byte>)
    requires SetSerial(orig, serial).Ok?
    ensures SetSerial(SetSerial(orig, serial).value, StringsOf(orig).serial) == Ok(orig) <==> Canonical(orig)
  {
    SecondEditWins(orig, serial, StringsOf(orig).serial);
    if Canonical(orig) {
      CanonicalIsFixed(orig);
    }
    if SetSerial(orig, StringsOf(orig).serial) == Ok(orig) {
      FixedIsCanonical(orig, StringsOf(orig).serial);
    }
  }

  /** An image with empty strings and room for every generated name. */
  function Blank(): seq<byte> {
    seq(EEPROM_SIZE, i requires 0 <= i < EEPROM_SIZE =>
      if i == 0 then 0x28
      else if i == 1 then 0x32
      else if i == 9 || i == 11 then 2
      else if i == 10 || i == 12 then 3
      else 0)
  }

  lemma BlankTakes(serial: seq<byte>)
    requires 1 <= |serial| <= 56
    ensures SetSerial(Blank(), serial).Ok?
  {
    var d := Blank();
    assert Skip(d, 9, 2) == Skip(d, 11, 1) == Skip(d, 13, 0) == Ok(13);
  }
}
