/** The serial numbers the agent generates. */
module SerialNames {
  import opened Common
  import opened Decimal

  /** "ADSBIQ" */
  const PREFIX: seq<byte> := [0x41, 0x44, 0x53, 0x42, 0x49, 0x51]

  function DigitBytes(ds: seq<nat>): (s: seq<byte>)
    requires AreDigits(ds)
  {
    seq<byte>(|ds|, i requires 0 <= i < |ds| => 0x30 + ds[i])
  }

  /** `ADSBIQ%d`: the serial the self-test writes. */
  function TestSerial(index: nat): seq<byte> {
    PREFIX + DigitBytes(Digits(index))
  }

  /** Reads a digit string back. */
  function ParseDigits(s: seq<byte>): nat {
    Value(seq<nat>(|s|, i requires 0 <= i < |s| => if s[i] < 0x30 then 0 else s[i] - 0x30))
  }

  lemma PaddedDigits(ds: seq<nat>)
    requires AreDigits(ds)
    ensures AreDigits(Pad3(ds))
    decreases 3 - |ds|
  {
    if |ds| < 3 {
      PaddedDigits([0] + ds);
    }
  }

  /** `ADSBIQ%03d`: the serials the de-duplicator hands out. */
  function Name(i: nat): seq<byte> {
    PaddedDigits(Digits(i));
    PREFIX + DigitBytes(Pad3(Digits(i)))
  }

  lemma NameFits(i: nat)
    requires i < 100000
    ensures 6 <= |Name(i)| <= 11
  {
    FiveDigits(i);
    PaddedLength(Digits(i));
  }

  lemma PaddedLength(ds: seq<nat>)
    ensures |Pad3(ds)| == if |ds| < 3 then 3 else |ds|
    decreases 3 - |ds|
  {
    if |ds| < 3 {
      PaddedLength([0] + ds);
    }
  }

  /** Some of the names, written out in ASCII. */
  lemma NamesSpelled()
    ensures Name(1) == [0x41, 0x44, 0x53, 0x42, 0x49, 0x51, 0x30, 0x30, 0x31]
    ensures Name(42) == [0x41, 0x44, 0x53, 0x42, 0x49, 0x51, 0x30, 0x34, 0x32]
    ensures Name(123) == [0x41, 0x44, 0x53, 0x42, 0x49, 0x51, 0x31, 0x32, 0x33]
    ensures TestSerial(42) == [0x41, 0x44, 0x53, 0x42, 0x49, 0x51, 0x34, 0x32]
  {
    SomeDigits();
    SomePadded();
    hide Digits, Pad3;
  }

  lemma SomeDigits()
    ensures Digits(1) == [1] && Digits(42) == [4, 2] && Digits(123) == [1, 2, 3]
  {
    assert Digits(4) == [4] && Digits(12) == [1, 2];
  }

  lemma SomePadded()
    ensures Pad3([1]) == [0, 0, 1] && Pad3([4, 2]) == [0, 4, 2] && Pad3([1, 2, 3]) == [1, 2, 3]
  {
    assert [0] + [1] == [0, 1] && [0] + [0, 1] == [0, 0, 1] && [0] + [4, 2] == [0, 4, 2];
    assert Pad3([1]) == Pad3([0, 1]) == Pad3([0, 0, 1]);
  }

  /** The numbering is injective: a name determines its number. */
  lemma NameInjective(i: nat, j: nat)
    ensures Name(i) == Name(j) <==> i == j
  {
    forall n: nat ensures |Name(n)| >= 6 && ParseDigits(Name(n)[6..]) == n {
      PaddedDigits(Digits(n));
      var ds := Pad3(Digits(n));
      var s := Name(n)[6..];
      assert s == DigitBytes(ds);
      assert seq<nat>(|s|, k requires 0 <= k < |s| => if s[k] < 0x30 then 0 else s[k] - 0x30) == ds;
      ValueOfDigits(n);
    }
  }
}

/**
 A dongle's EEPROM chip and the two procedures that write it: the serial writer
 with its read-back check, and the reversible self-test
 (agent/eeprom_windows.go).  What the device does with each access, a write being
 stored, dropped or cut off, is an input.
 */
module EepromChip {
  import opened Common
  import opened Eeprom
  import opened SerialNames

  /**
   How one write ends: stored; reported as stored but dropped (write-protected part); failed after `written`
   bytes.
   */
  datatype WriteOutcome = Stored | Ignored | Failed(written: nat)

  datatype Io = Io(readOk: bool, write: WriteOutcome, verifyOk: bool)

  datatype SelfTestIo = SelfTestIo(readOk: bool, write: WriteOutcome, readBackOk: bool, restore: WriteOutcome,
      readRestoredOk: bool)

  datatype Verdict =
    | Pass
    | Refused(error: Error)     // nothing was written
    | TestWriteFailed
    | ReadBackFailed
    | RestoreFailed
    | ReadRestoredFailed
    | WriteVerifyFailed
    | RestoreVerifyFailed

  function AfterWrite(mem: seq<byte>, data: seq<byte>, w: WriteOutcome): (r: seq<byte>)
    requires |data| <= |mem|
    ensures |r| == |mem| && r[|data|..] == mem[|data|..]
  {
    match w
    case Stored => data + mem[|data|..]
    case Ignored => mem
    case Failed(n) => data[..Min(n, |data|)] + mem[Min(n, |data|)..]
  }

  /** Image and error left by writing a serial. */
  function WriteSerial(mem: seq<byte>, serial: seq<byte>, io: Io): (seq<byte>, Option<Error>) {
    if !io.readOk then (mem, Some(ReadFailed))
    else if SetSerial(mem, serial).Err? then (mem, Some(SetSerial(mem, serial).error))
    else
      var after := AfterWrite(mem, SetSerial(mem, serial).value[..STRINGS_END], io.write);
      if io.write.Failed? then (after, Some(WriteFailed))
      else if !io.verifyOk then (after, Some(ReadFailed))
      else if StringsOf(after).serial != serial then (after, Some(VerifyFailed))
      else (after, None)
  }

  /** Image and verdict left by the self-test of dongle `index`. */
  function SelfTest(mem: seq<byte>, index: nat, io: SelfTestIo): (seq<byte>, Verdict) {
    var edit := SetSerial(mem, TestSerial(index));
    if !io.readOk then (mem, Refused(ReadFailed))
    else if edit.Err? then (mem, Refused(edit.error))
    else
      var after := AfterWrite(mem, edit.value[..STRINGS_END], io.write);
      if io.write.Failed? then (after, TestWriteFailed)
      else if !io.readBackOk then (after, ReadBackFailed)
      else
        var restored := AfterWrite(after, mem[..STRINGS_END], io.restore);
        if io.restore.Failed? then (restored, RestoreFailed)
        else if !io.readRestoredOk then (restored, ReadRestoredFailed)
        else if StringsOf(after).serial != TestSerial(index) then (restored, WriteVerifyFailed)
        else if StringsOf(restored).serial != StringsOf(mem).serial then (restored, RestoreVerifyFailed)
        else (restored, Pass)
  }

  class Chip {
    const mem: array<byte>

    predicate Valid() {
      mem.Length == EEPROM_SIZE
    }

    constructor (image: seq<byte>)
      requires |image| == EEPROM_SIZE
      ensures Valid() && fresh(mem) && mem.Length == 256 && mem[..] == image
    {
      mem := new byte[|image|](i requires 0 <= i < |image| => image[i]);
    }

    method ReadEEPROM(ok: bool) returns (r: Result<seq<byte>, Error>)
      ensures r == if ok then Ok(mem[..]) else Err(ReadFailed)
    {
      r := if ok then Ok(mem[..]) else Err(ReadFailed);
    }

    /** Writes `data` at offset 0, byte by byte. */
    method WriteEEPROM(data: seq<byte>, w: WriteOutcome) returns (failed: bool)
      requires |data| <= mem.Length
      modifies mem
      ensures mem[..] == AfterWrite(old(mem[..]), data, w) && failed == w.Failed?
    {
      failed := w.Failed?;
      if w.Ignored? {
        return;
      }
      var n := if w.Stored? then |data| else Min(w.written, |data|);
      var i := 0;
      while i < n
        invariant 0 <= i <= n
        invariant forall j :: 0 <= j < mem.Length ==> mem[j] == if j < i then data[j] else old(mem[j])
      {
        mem[i] := data[i];
        i := i + 1;
      }
      assert mem[..] == data[..n] + old(mem[..])[n..];
      assert w.Stored? ==> data[..n] == data;
    }

    method WriteDongleSerial(serial: seq<byte>, io: Io) returns (error: Option<Error>)
      requires Valid()
      modifies mem
      ensures (mem[..], error) == WriteSerial(old(mem[..]), serial, io)
    {
      var orig := ReadEEPROM(io.readOk);
      if orig.Err? {
        return Some(orig.error);
      }
      var mod := SetEEPROMSerial(orig.value, serial);
      if mod.Err? {
        return Some(mod.error);
      }
      var failed := WriteEEPROM(mod.value[..STRINGS_END], io.write);
      if failed {
        return Some(WriteFailed);
      }
      var after := ReadEEPROM(io.verifyOk);
      if after.Err? {
        return Some(after.error);
      }
      var _, _, s := ParseEEPROMStrings(after.value);
      return if s != serial then Some(VerifyFailed) else None;
    }

    method EepromSelfTest(index: nat, io: SelfTestIo) returns (verdict: Verdict)
      requires Valid()
      modifies mem
      ensures (mem[..], verdict) == SelfTest(old(mem[..]), index, io)
    {
      var orig := ReadEEPROM(io.readOk);
      if orig.Err? {
        return Refused(orig.error);
      }
      var _, _, origSerial := ParseEEPROMStrings(orig.value);
      var mod := SetEEPROMSerial(orig.value, TestSerial(index));
      if mod.Err? {
        return Refused(mod.error);
      }
      var failed := WriteEEPROM(mod.value[..STRINGS_END], io.write);
      if failed {
        return TestWriteFailed;
      }
      var after := ReadEEPROM(io.readBackOk);
      if after.Err? {
        return ReadBackFailed;
      }
      var _, _, gotSerial := ParseEEPROMStrings(after.value);
      failed := WriteEEPROM(orig.value[..STRINGS_END], io.restore);
      if failed {
        return RestoreFailed;
      }
      var restored := ReadEEPROM(io.readRestoredOk);
      if restored.Err? {
        return ReadRestoredFailed;
      }
      var _, _, rSerial := ParseEEPROMStrings(restored.value);
      if gotSerial != TestSerial(index) {
        return WriteVerifyFailed;
      }
      return if rSerial != origSerial then RestoreVerifyFailed else Pass;
    }
  }

  // ----- What the two procedures promise -----

  /** Storing the first 128 bytes of an edited image leaves exactly that image on the chip. */
  lemma StoredIsWholeEdit(mem: seq<byte>, serial: seq<byte>)
    requires SetSerial(mem, serial).Ok?
    ensures AfterWrite(mem, SetSerial(mem, serial).value[..STRINGS_END], Stored) == SetSerial(mem, serial).value
  {
  }

  /**
   Whichever of the three outcomes the write has, a reported success means the chip now parses to the serial,
   its other strings kept.
   */
  lemma ReportedSuccessIsReal(mem: seq<byte>, serial: seq<byte>, io: Io)
    requires WriteSerial(mem, serial, io).1 == None
    ensures StringsOf(WriteSerial(mem, serial, io).0) == StringsOf(mem).(serial := serial)
  {
    StoredIsWholeEdit(mem, serial);
    RoundTrip(mem, serial);
  }

  /** On a chip that stores what it is told, the read-back check never fails. */
  lemma FaithfulChipVerifies(mem: seq<byte>, serial: seq<byte>)
    ensures WriteSerial(mem, serial, Io(true, Stored, true)) ==
            match SetSerial(mem, serial) case Ok(out) => (out, None) case Err(e) => (mem, Some(e))
  {
    if SetSerial(mem, serial).Ok? {
      StoredIsWholeEdit(mem, serial);
      RoundTrip(mem, serial);
    }
  }

  /** No outcome of a serial write, failed ones included, touches the bytes behind the strings area. */
  lemma RestOfChipUntouched(mem: seq<byte>, serial: seq<byte>, io: Io)
    requires |mem| == EEPROM_SIZE
    ensures |WriteSerial(mem, serial, io).0| == 256 && WriteSerial(mem, serial, io).0[128..] == mem[128..]
  {
  }

  /** Once the restoring write is stored, the chip is byte for byte as found, whatever the first write did. */
  lemma StoredRestoreUndoes(mem: seq<byte>, index: nat, io: SelfTestIo)
    requires SelfTest(mem, index, io).1 in {Pass, ReadRestoredFailed, WriteVerifyFailed, RestoreVerifyFailed}
    requires io.restore == Stored
    ensures SelfTest(mem, index, io).0 == mem && SelfTest(mem, index, io).1 != RestoreVerifyFailed
  {
  }

  /**
   On a chip that stores what it is told the test passes unless an access fails or the image cannot take the
   serial.
   */
  lemma FaithfulPassIff(mem: seq<byte>, index: nat, io: SelfTestIo)
    requires io.write == Stored && io.restore == Stored
    ensures SelfTest(mem, index, io).1 == Pass <==>
            io.readOk && io.readBackOk && io.readRestoredOk && SetSerial(mem, TestSerial(index)).Ok?
  {
    if io.readOk && SetSerial(mem, TestSerial(index)).Ok? {
      StoredIsWholeEdit(mem, TestSerial(index));
      RoundTrip(mem, TestSerial(index));
      if io.readBackOk && io.readRestoredOk {
        StoredRestoreUndoes(mem, index, io);
      }
    }
  }

  /** A pass on a chip whose serial was different proves that the test write reached the chip. */
  lemma PassProvesWritable(mem: seq<byte>, index: nat, io: SelfTestIo)
    requires SelfTest(mem, index, io).1 == Pass && StringsOf(mem).serial != TestSerial(index)
    ensures io.write == Stored && io.restore == Stored && SelfTest(mem, index, io).0 == mem
  {
  }

  /** The writes of the test, given the image it edits to, leave or restore every byte. */
  predicate Undone(mem: seq<byte>, edited: seq<byte>, io: SelfTestIo)
    requires |mem| == |edited| == EEPROM_SIZE
  {
    match io.write
    case Ignored => true
    case Failed(n) => edited[..Min(n, STRINGS_END)] == mem[..Min(n, STRINGS_END)]
    case Stored =>
      if !io.readBackOk then edited == mem
      else
        match io.restore
        case Stored => true
        case Ignored => edited == mem
        case Failed(n) => edited[Min(n, STRINGS_END)..] == mem[Min(n, STRINGS_END)..]
  }

  /**
   Writing the strings area of `data`, which agrees with the chip behind it, makes the chip agree up to where
   it got.
   */
  lemma SomeWrite(mem: seq<byte>, data: seq<byte>, w: WriteOutcome)
    requires |mem| == |data| == EEPROM_SIZE && mem[STRINGS_END..] == data[STRINGS_END..]
    ensures var r := AfterWrite(mem, data[..STRINGS_END], w);
            && (w == Stored ==> r == data)
            && (w.Failed? ==> var n := Min(w.written, STRINGS_END);
                  (r == mem <==> data[..n] == mem[..n]) && (r == data <==> data[n..] == mem[n..]))
  {
    var r := AfterWrite(mem, data[..STRINGS_END], w);
    if w == Stored {
      assert r == data[..STRINGS_END] + data[STRINGS_END..];
    } else if w.Failed? {
      var n := Min(w.written, STRINGS_END);
      assert r[..n] == data[..n] && r[n..] == mem[n..];
      assert mem == mem[..n] + mem[n..] && data == data[..n] + data[n..];
    }
  }

  /** Restoring over an unchanged chip leaves it unchanged. */
  lemma RestoreOver(mem: seq<byte>, after: seq<byte>, w: WriteOutcome)
    requires |mem| == |after| == EEPROM_SIZE
    ensures after == mem ==> AfterWrite(after, mem[..STRINGS_END], w) == mem
  {
    SomeWrite(mem, mem, w);
  }

  /**
   Exactly when the test leaves the dongle as found, whatever the device does with each
   access.  It returns without restoring when the test write fails part of the way or the
   read-back after it fails; a restoring write can be dropped or fail part of the way too.
   */
  lemma LeftAsFoundIff(mem: seq<byte>, index: nat, io: SelfTestIo)
    requires |mem| == EEPROM_SIZE
    ensures SelfTest(mem, index, io).0 == mem <==>
            || !io.readOk || SetSerial(mem, TestSerial(index)).Err?
            || Undone(mem, SetSerial(mem, TestSerial(index)).value, io)
  {
    var edit := SetSerial(mem, TestSerial(index));
    if io.readOk && edit.Ok? {
      StoredIsWholeEdit(mem, TestSerial(index));
      OnlySerialAreaChanges(mem, TestSerial(index));
      hide SetSerial, StringsOf;
      SomeWrite(mem, edit.value, io.write);
      SomeWrite(edit.value, mem, io.restore);
      var after := AfterWrite(mem, edit.value[..STRINGS_END], io.write);
      RestoreOver(mem, after, io.restore);
    }
  }

  /** A test write that fails behind the flag byte leaves a chip without that flag changed, and nothing is restored. */
  lemma FailedTestWriteChanges(mem: seq<byte>, index: nat, io: SelfTestIo)
    requires |mem| == EEPROM_SIZE && io.readOk && SetSerial(mem, TestSerial(index)).Ok?
    requires io.write.Failed? && io.write.written > HAVE_SERIAL_OFFSET && mem[HAVE_SERIAL_OFFSET] != HAVE_SERIAL
    ensures SelfTest(mem, index, io).0 != mem && SelfTest(mem, index, io).1 == TestWriteFailed
  {
    var after := SelfTest(mem, index, io).0;
    assert after[HAVE_SERIAL_OFFSET] == HAVE_SERIAL;
  }

  /** There is such a chip: the self-test of dongle 1, cut off behind the flag byte, changes a blank one for good. */
  lemma SelfTestCanChange()
    ensures var io := SelfTestIo(true, Failed(7), true, Stored, true);
            SelfTest(Blank(), 1, io).0 != Blank() && SelfTest(Blank(), 1, io).1 == TestWriteFailed
  {
    assert |TestSerial(1)| == 7;
    BlankTakes(TestSerial(1));
    hide SetSerial, SelfTest;
    FailedTestWriteChanges(Blank(), 1, SelfTestIo(true, Failed(7), true, Stored, true));
  }

  // ----- What a failed serial write leaves behind -----

  /** The serial the chip parses to after a serial write. */
  function LeftBehind(mem: seq<byte>, serial: seq<byte>, io: Io): seq<byte> {
    StringsOf(WriteSerial(mem, serial, io).0).serial
  }

  /**
   The new serial up to the bytes written, the old bytes behind; nothing if the descriptor is torn before its
   type.
   */
  function Torn(mem: seq<byte>, start: nat, serial: seq<byte>, written: nat): seq<byte>
    requires start + DescriptorLength(serial) <= |mem|
  {
    if written == start + 1 && mem[start + 1] != STRING_DESCRIPTOR then []
    else
      seq(|serial|, k requires 0 <= k < |serial| =>
        if start + 2 + 2 * k < written then serial[k] else mem[start + 2 + 2 * k])
  }

  lemma {:induction false} SameDescriptors(d: seq<byte>, e: seq<byte>, pos: nat, k: nat)
    requires |d| == |e| && forall i :: pos <= i < |d| ==> d[i] == e[i]
    ensures Descriptors(d, pos, k) == Descriptors(e, pos, k)
    decreases k
  {
    if k > 0 && DescriptorAt(d, pos) {
      assert d[pos] == e[pos];
      SameText(d, e, pos, d[pos]);
      hide Text;
      SameDescriptors(d, e, pos + d[pos], k - 1);
    }
  }

  lemma FlagIsNoString(d: seq<byte>, e: seq<byte>)
    requires |d| == |e| >= 10 && forall i :: 0 <= i < |d| && i != HAVE_SERIAL_OFFSET ==> d[i] == e[i]
    ensures StringsOf(d) == StringsOf(e)
  {
    SameDescriptors(d, e, STRINGS_START, 3);
  }

  lemma WalkDecidesStart(d: seq<byte>, e: seq<byte>, start: nat)
    requires SerialStart(d) == Ok(start) && start <= |d| == |e|
    requires forall i :: STRINGS_START <= i < start ==> d[i] == e[i]
    ensures SerialStart(e) == Ok(start)
  {
    TwoDescriptorsFirst(d, start);
    var p := STRINGS_START + d[STRINGS_START];
    assert e[p] == d[p] && e[p + 1] == d[p + 1];
    assert Skip(e, STRINGS_START, 2) == Skip(e, p, 1) == Skip(e, start, 0);
  }

  lemma TornDescriptor(mem: seq<byte>, edit: seq<byte>, r: seq<byte>, start: nat, serial: seq<byte>, n: nat)
    requires |mem| == |edit| == |r| && start < n && 1 <= |serial| &&
        start + DescriptorLength(serial) <= STRINGS_END <= |mem|
    requires edit[start] == DescriptorLength(serial) && edit[start + 1] == STRING_DESCRIPTOR
    requires forall k :: 0 <= k < |serial| ==> edit[start + 2 + 2 * k] == serial[k]
    requires forall i :: 0 <= i < STRINGS_END ==> r[i] == if i < n then edit[i] else mem[i]
    ensures Nth(Descriptors(r, start, 1), 0) == Torn(mem, start, serial, n)
  {
    var torn := Torn(mem, start, serial, n);
    if r[start + 1] == STRING_DESCRIPTOR {
      assert Text(r, start, r[start]) == torn;
      assert Descriptors(r, start, 1) == [torn] + Descriptors(r, start + r[start], 0);
    }
  }

  lemma EditedBytes(mem: seq<byte>, serial: seq<byte>)
    requires SetSerial(mem, serial).Ok?
    ensures var (start, edit) := (SerialStart(mem).value, SetSerial(mem, serial).value);
            && |edit| == |mem| && 1 <= |serial| && STRINGS_START < start &&
                start + DescriptorLength(serial) <= STRINGS_END <= |mem|
            && (forall i :: STRINGS_START <= i < start ==> edit[i] == mem[i])
            && edit[start] == DescriptorLength(serial) && edit[start + 1] == STRING_DESCRIPTOR
            && (forall k :: 0 <= k < |serial| ==> edit[start + 2 + 2 * k] == serial[k])
  {
    OnlySerialAreaChanges(mem, serial);
  }

  lemma PartlyWritten(mem: seq<byte>, edit: seq<byte>, n: nat)
    requires |mem| == |edit| >= STRINGS_END
    ensures var r := AfterWrite(mem, edit[..STRINGS_END], Failed(n));
            |r| == |mem| && forall i :: 0 <= i < STRINGS_END ==> r[i] == if i < n then edit[i] else mem[i]
  {
  }

  /** A serial write cut off inside the serial descriptor leaves the torn serial. */
  lemma TornIsParsed(mem: seq<byte>, serial: seq<byte>, n: nat)
    requires SetSerial(mem, serial).Ok? && SerialStart(mem).value < n
    ensures var r := AfterWrite(mem, SetSerial(mem, serial).value[..STRINGS_END], Failed(n));
            StringsOf(r).serial == Torn(mem, SerialStart(mem).value, serial, n)
  {
    var (start, edit) := (SerialStart(mem).value, SetSerial(mem, serial).value);
    var r := AfterWrite(mem, edit[..STRINGS_END], Failed(n));
    EditedBytes(mem, serial);
    PartlyWritten(mem, edit, n);
    assert HasMagic(r);
    hide Skip, SetSerial, Descriptors, AfterWrite, Torn;
    WalkDecidesStart(mem, r, start);
    TwoDescriptorsFirst(r, start);
    TornDescriptor(mem, edit, r, start, serial, n);
  }

  /**
   What a serial write that reports an error leaves on the chip: the old serial if it
   never got to the serial descriptor, the new one if only the read-back failed, and
   a torn one if it was cut off inside.
   */
  lemma FailedWriteLeaves(mem: seq<byte>, serial: seq<byte>, io: Io)
    requires |mem| == EEPROM_SIZE && WriteSerial(mem, serial, io).1.Some?
    ensures LeftBehind(mem, serial, io) ==
            if !io.readOk || SetSerial(mem, serial).Err? || io.write.Ignored? then StringsOf(mem).serial
            else
              match io.write
              case Stored => serial
              case Failed(n) =>
                if n <= SerialStart(mem).value then StringsOf(mem).serial
                else Torn(mem, SerialStart(mem).value, serial, n)
  {
    if io.readOk && SetSerial(mem, serial).Ok? && !io.write.Ignored? {
      if io.write.Stored? {
        StoredIsWholeEdit(mem, serial);
        RoundTrip(mem, serial);
      } else if io.write.written <= SerialStart(mem).value {
        OnlySerialAreaChanges(mem, serial);
        FlagIsNoString(mem, WriteSerial(mem, serial, io).0);
      } else {
        TornIsParsed(mem, serial, io.write.written);
      }
    }
  }
}
