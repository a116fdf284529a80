/** The configuration EEPROM: printing a configuration into an image, programming only the bytes
    that differ, reading the image back and parsing it. */
module Eeprom {
  import opened Bytes

  const EEPROM_SIZE := 256
  const STR_OFFSET := 9
  const IR_OFFSET := 78
  const STRING_TYPE: byte := 3

  /** A string up to its terminating NUL. */
  predicate IsString(s: seq<byte>) {
    0 !in s
  }

  datatype Conf = Conf(vendorId: word, productId: word, manufacturer: seq<byte>, product: seq<byte>, serial: seq<byte>,
    haveSerial: int, enableIr: int, remoteWakeup: int)
  {
    /** Flags are 0 or 1 after a round trip. */
    function Normalized(): Conf {
      this.(haveSerial := Flag(haveSerial), enableIr := Flag(enableIr), remoteWakeup := Flag(remoteWakeup))
    }

    predicate Strings() {
      IsString(manufacturer) && IsString(product) && IsString(serial)
    }
  }

  function Flag(x: int): byte {
    if x != 0 then 1 else 0
  }

  // ---------------------------------------------------------------- one string

  /** The descriptor of s is at pos, whatever its type byte. */
  ghost predicate StringAt(data: seq<byte>, pos: nat, s: seq<byte>) {
    && pos + 2 + 2 * |s| <= |data| && data[pos] == 2 + 2 * |s|
    && forall i :: 0 <= i < |s| ==> data[pos + 2 + 2 * i] == s[i]
  }

  /** The string is empty or its last character is stored below the infrared configuration. */
  predicate Fits(pos: nat, s: seq<byte>) {
    s == [] || pos + 2 * |s| < IR_OFFSET
  }

  ghost predicate SameOutside(d: seq<byte>, e: seq<byte>, lo: int, hi: int) {
    |d| == |e| && forall k :: 0 <= k < |d| && !(lo <= k < hi) ==> d[k] == e[k]
  }

  method SetStringDescriptor(pos: int, data: array<byte>, str: seq<byte>) returns (r: int)
    requires data.Length == EEPROM_SIZE && pos < EEPROM_SIZE - 1 && IsString(str)
    modifies data
    ensures pos < 0 ==> r == -1 && data[..] == old(data[..])
    ensures pos >= 0 ==> (r >= 0 <==> Fits(pos, str))
    ensures r >= 0 ==> r == pos + 2 + 2 * |str| <= EEPROM_SIZE
    ensures r >= 0 ==> StringAt(data[..], pos, str) && data[pos + 1] == 3
    ensures r >= 0 ==> SameOutside(old(data[..]), data[..], pos, r)
    ensures r >= 0 ==> forall i :: 0 <= i < |str| ==> data[pos + 3 + 2 * i] == 0
    ensures r < 0 ==> r == -1
    ensures r < 0 <= pos ==>
      SameOutside(old(data[..]), data[..], pos, if pos < IR_OFFSET then IR_OFFSET + 1 else pos + 2)
  {
    if pos < 0 {
      return -1;
    }
    data[pos + 1] := STRING_TYPE;
    var i, j := 0, 2;
    while i < |str|
      invariant 0 <= i <= |str| && j == 2 + 2 * i && (i == 0 || pos + 2 * i < IR_OFFSET) && data[pos + 1] == STRING_TYPE
      invariant forall k :: 0 <= k < i ==> data[pos + 2 + 2 * k] == str[k] && data[pos + 3 + 2 * k] == 0
      invariant forall k :: 0 <= k < EEPROM_SIZE && !(pos < k < pos + j) ==> data[k] == old(data[k])
    {
      if pos + j >= IR_OFFSET {
        return -1;
      }
      data[pos + j] := str[i];
      data[pos + j + 1] := 0;
      i, j := i + 1, j + 2;
    }
    data[pos] := j;
    return pos + j;
  }

  // ---------------------------------------------------------------- a configuration

  function ProductAt(c: Conf): nat { STR_OFFSET + 2 + 2 * |c.manufacturer| }
  function SerialAt(c: Conf): nat { ProductAt(c) + 2 + 2 * |c.product| }
  function EndOf(c: Conf): nat { SerialAt(c) + 2 + 2 * |c.serial| }

  predicate AllFit(c: Conf) {
    Fits(STR_OFFSET, c.manufacturer) && Fits(ProductAt(c), c.product) && Fits(SerialAt(c), c.serial)
  }

  predicate Header(d: seq<byte>, c: Conf) {
    && |d| > 8 && d[0] == 0x28 && d[1] == 0x32
    && d[2] == c.vendorId % 256 && d[3] == c.vendorId / 256 && d[4] == c.productId % 256 && d[5] == c.productId / 256
    && d[6] == (if c.haveSerial != 0 then 0xa5 else 0) && d[7] == 0x14 + Flag(c.remoteWakeup) + 2 * Flag(c.enableIr)
      && d[8] == 2
  }

  /** The image holds the configuration c. */
  ghost predicate Encodes(d: seq<byte>, c: Conf) {
    && Header(d, c)
    && StringAt(d, STR_OFFSET, c.manufacturer) && StringAt(d, ProductAt(c), c.product)
      && StringAt(d, SerialAt(c), c.serial)
  }

  /** Which of the three descriptors carry the right type. */
  predicate TypesValid(d: seq<byte>, c: Conf)
    requires |d| == EEPROM_SIZE && EndOf(c) <= EEPROM_SIZE
  {
    d[STR_OFFSET + 1] == STRING_TYPE && d[ProductAt(c) + 1] == STRING_TYPE && d[SerialAt(c) + 1] == STRING_TYPE
  }

  method SetHeader(c: Conf, dat: array<byte>)
    requires dat.Length == EEPROM_SIZE
    modifies dat
    ensures Header(dat[..], c)
    ensures forall k :: STR_OFFSET <= k < EEPROM_SIZE ==> dat[k] == old(dat[k])
  {
    dat[0] := 0x28;
    dat[1] := 0x32;
    dat[2] := c.vendorId % 256;
    dat[3] := c.vendorId / 256 % 256;
    dat[4] := c.productId % 256;
    dat[5] := c.productId / 256 % 256;
    dat[6] := if c.haveSerial != 0 then 0xa5 else 0x00;
    dat[7] := 0x14;
    dat[7] := dat[7] + (if c.remoteWakeup != 0 then 0x01 else 0x00);
    dat[7] := dat[7] + (if c.enableIr != 0 then 0x02 else 0x00);
    dat[8] := 0x02;
  }

  /** A descriptor is not touched by changes behind it. */
  lemma StringKept(d: seq<byte>, e: seq<byte>, lo: int, hi: int, pos: nat, s: seq<byte>)
    requires StringAt(d, pos, s) && SameOutside(d, e, lo, hi) && pos + 2 + 2 * |s| <= lo
    ensures StringAt(e, pos, s)
    ensures pos + 1 < |e| == |d| && d[pos + 1] == e[pos + 1]
  {
  }

  lemma HeaderKept(d: seq<byte>, e: seq<byte>, lo: int, hi: int, c: Conf)
    requires Header(d, c) && SameOutside(d, e, lo, hi) && STR_OFFSET <= lo
    ensures Header(e, c)
  {
  }

  lemma Same(d: seq<byte>, e: seq<byte>, f: seq<byte>, lo: int, mid: int, hi: int, top: int)
    requires SameOutside(d, e, lo, mid) && SameOutside(e, f, mid, hi) && lo <= mid && mid <= top && hi <= top
    ensures SameOutside(d, f, lo, top)
  {
  }

  /** Nor by the length of the infrared configuration, which is at an even place: lengths and
      characters are at odd ones. */
  lemma InfraredKept(d: seq<byte>, pos: nat, s: seq<byte>)
    requires |d| == EEPROM_SIZE && StringAt(d, pos, s) && pos % 2 == 1 && pos < 2 * IR_OFFSET
    ensures StringAt(d[IR_OFFSET := 0], pos, s)
    ensures pos + 1 < |d| && d[IR_OFFSET := 0][pos + 1] == if pos + 1 == IR_OFFSET then 0 else d[pos + 1]
  {
  }

  /** The three strings, one after the other. */
  method SetStrings(c: Conf, dat: array<byte>) returns (pos: int)
    requires dat.Length == EEPROM_SIZE && c.Strings()
    modifies dat
    ensures pos >= 0 <==> AllFit(c)
    ensures pos >= 0 ==>
      && pos == EndOf(c) <= 83 && TypesValid(dat[..], c)
      && StringAt(dat[..], STR_OFFSET, c.manufacturer) && StringAt(dat[..], ProductAt(c), c.product)
        && StringAt(dat[..], SerialAt(c), c.serial)
    ensures SameOutside(old(dat[..]), dat[..], STR_OFFSET, 83)
  {
    hide StringAt, SameOutside;
    ghost var d0 := dat[..];
    pos := SetStringDescriptor(STR_OFFSET, dat, c.manufacturer);
    ghost var d1, pos1 := dat[..], pos;
    if pos < 0 {
      Widen(d0, d1, STR_OFFSET, IR_OFFSET + 1, 83);
    } else {
      pos := SetStringDescriptor(pos, dat, c.product);
      ghost var d2, pos2 := dat[..], pos;
      if pos < 0 {
        Same(d0, d1, d2, STR_OFFSET, pos1, if pos1 < IR_OFFSET then IR_OFFSET + 1 else pos1 + 2, 83);
      } else {
        StringKept(d1, d2, pos1, pos2, STR_OFFSET, c.manufacturer);
        Same(d0, d1, d2, STR_OFFSET, pos1, pos2, pos2);
        pos := SetStringDescriptor(pos, dat, c.serial);
        ghost var d3 := dat[..];
        ghost var pos3 := if pos >= 0 then pos else if pos2 < IR_OFFSET then IR_OFFSET + 1 else pos2 + 2;
        StringKept(d2, d3, pos2, pos3, STR_OFFSET, c.manufacturer);
        StringKept(d2, d3, pos2, pos3, ProductAt(c), c.product);
        Same(d0, d2, d3, STR_OFFSET, pos2, pos3, 83);
      }
    }
  }

  lemma Widen(d: seq<byte>, e: seq<byte>, lo: int, hi: int, top: int)
    requires SameOutside(d, e, lo, hi) && hi <= top
    ensures SameOutside(d, e, lo, top)
  {
  }

  /** The image is complete just when every string fits. Its types are valid unless the one of an
      empty string is where the length of the infrared configuration goes. */
  method GenEepromFromConf(c: Conf, dat: array<byte>) returns (pos: int)
    requires dat.Length == EEPROM_SIZE && c.Strings()
    modifies dat
    ensures pos >= 0 <==> AllFit(c)
    ensures pos >= 0 ==> pos == EndOf(c) <= 83 && Encodes(dat[..], c)
    ensures pos >= 0 ==> (TypesValid(dat[..], c) <==> ProductAt(c) != IR_OFFSET - 1 && SerialAt(c) != IR_OFFSET - 1)
    ensures dat[IR_OFFSET] == 0
    ensures forall k :: 83 <= k < EEPROM_SIZE ==> dat[k] == old(dat[k])
  {
    hide StringAt;
    SetHeader(c, dat);
    ghost var d0 := dat[..];
    pos := SetStrings(c, dat);
    ghost var d := dat[..];
    HeaderKept(d0, d, STR_OFFSET, 83, c);
    dat[IR_OFFSET] := 0x00;
    if pos >= 0 {
      assert dat[..] == d[IR_OFFSET := 0];
      InfraredKept(d, STR_OFFSET, c.manufacturer);
      InfraredKept(d, ProductAt(c), c.product);
      InfraredKept(d, SerialAt(c), c.serial);
    }
  }

  /** An empty product behind a manufacturer of 33 characters loses its type. */
  lemma TypeOverwritten(c: Conf, d: seq<byte>)
    requires |c.manufacturer| == 33 && c.product == [] && c.serial == []
    requires |d| == EEPROM_SIZE && d[IR_OFFSET] == 0
    ensures AllFit(c) && EndOf(c) == 81 && !TypesValid(d, c)
  {
    assert ProductAt(c) + 1 == IR_OFFSET;
  }

  // ---------------------------------------------------------------- parsing

  /** How many characters are read for a length byte: every other byte from the third on. */
  function Chars(len: byte): (n: nat)
    ensures forall k: nat :: k < n <==> 2 + 2 * k < len
  {
    if len <= 2 then 0 else (len - 1) / 2
  }

  /** The length, the type and every character that is read are in the image. */
  predicate DescriptorInside(d: seq<byte>, pos: nat) {
    pos + 1 < |d| && pos + 2 * Chars(d[pos]) < |d|
  }

  /** The string of the descriptor at pos, whatever its length byte. */
  function StringOf(d: seq<byte>, pos: nat): (s: seq<byte>)
    requires DescriptorInside(d, pos)
  {
    seq(Chars(d[pos]), i requires 0 <= i < Chars(d[pos]) => d[pos + 2 + 2 * i])
  }

  function NextDescriptor(d: seq<byte>, pos: nat): nat
    requires DescriptorInside(d, pos)
  {
    pos + 2 + 2 * |StringOf(d, pos)|
  }

  /** Nothing is read outside the image. */
  predicate Readable(d: seq<byte>) {
    && |d| == EEPROM_SIZE && DescriptorInside(d, STR_OFFSET) && DescriptorInside(d, NextDescriptor(d, STR_OFFSET))
    && DescriptorInside(d, NextDescriptor(d, NextDescriptor(d, STR_OFFSET)))
  }

  /** Whether the parser stays inside an image is a matter of three length bytes. */
  lemma ReadableIff(d: seq<byte>)
    requires |d| == EEPROM_SIZE
    ensures Readable(d) <==>
      var n1 := Chars(d[STR_OFFSET]);
      n1 <= 120 && (
        var n2 := Chars(d[STR_OFFSET + 2 + 2 * n1]);
        n1 + n2 <= 120 && n1 + n2 + Chars(d[STR_OFFSET + 4 + 2 * (n1 + n2)]) <= 121)
  {
    hide Chars;
    if DescriptorInside(d, STR_OFFSET) {
      var n1 := Chars(d[STR_OFFSET]);
      assert NextDescriptor(d, STR_OFFSET) == STR_OFFSET + 2 + 2 * n1;
      if DescriptorInside(d, STR_OFFSET + 2 + 2 * n1) {
        var n2 := Chars(d[STR_OFFSET + 2 + 2 * n1]);
        assert NextDescriptor(d, STR_OFFSET + 2 + 2 * n1) == STR_OFFSET + 4 + 2 * (n1 + n2);
      }
    }
  }

  /** The parser leaves an EEPROM that has never been written. */
  lemma BlankIsUnreadable(d: seq<byte>)
    requires |d| == EEPROM_SIZE && forall i :: 0 <= i < |d| ==> d[i] == 0xff
    ensures !Readable(d)
  {
    ReadableIff(d);
    hide Readable;
  }

  function ParsedConf(d: seq<byte>): Conf
    requires Readable(d)
  {
    var second := NextDescriptor(d, STR_OFFSET);
    Conf(WordAt(d, 2), WordAt(d, 4), StringOf(d, STR_OFFSET), StringOf(d, second),
      StringOf(d, NextDescriptor(d, second)),
      if d[6] == 0xa5 then 1 else 0, d[7] / 2 % 2, d[7] % 2)
  }

  function WordAt(d: seq<byte>, i: nat): word
    requires i + 1 < |d|
  {
    d[i] as int + d[i + 1] as int * 256
  }

  method GetStringDescriptor(pos: nat, data: array<byte>) returns (next: nat, str: seq<byte>, valid: bool)
    requires DescriptorInside(data[..], pos)
    ensures valid <==> data[pos + 1] == 3
    ensures str == StringOf(data[..], pos) && next == NextDescriptor(data[..], pos)
  {
    var len: nat := data[pos];
    valid := data[pos + 1] == STRING_TYPE;
    ghost var whole := StringOf(data[..], pos);
    var i: nat := 2;
    str := [];
    while i < len
      invariant i == 2 + 2 * |str| && |str| <= |whole| && str == whole[..|str|]
    {
      str := str + [data[pos + i]];
      i := i + 2;
    }
    next := pos + i;
    assert |str| == |whole|;
  }

  /** The parser goes on with a header that is not valid, after a message. */
  method ParseEepromToConf(dat: array<byte>) returns (conf: Conf, headerOk: bool)
    requires Readable(dat[..])
    ensures conf == ParsedConf(dat[..]) && headerOk == HeaderValid(dat[..])
  {
    hide DescriptorInside, StringOf, NextDescriptor;
    headerOk := !(dat[0] != 0x28 || dat[1] != 0x32);
    var pos, m, p, s, valid;
    pos, m, valid := GetStringDescriptor(STR_OFFSET, dat);
    pos, p, valid := GetStringDescriptor(pos, dat);
    pos, s, valid := GetStringDescriptor(pos, dat);
    conf := Conf(WordAt(dat[..], 2), WordAt(dat[..], 4), m, p, s,
      if dat[6] == 0xa5 then 1 else 0, if dat[7] / 2 % 2 == 1 then 1 else 0, if dat[7] % 2 == 1 then 1 else 0);
  }

  predicate HeaderValid(d: seq<byte>) {
    |d| >= 2 && d[0] == 40 && d[1] == 50
  }

  /** The nine bytes before the strings. */
  lemma HeaderIs(d: seq<byte>, c: Conf)
    requires Header(d, c)
    ensures d[..9] == [40, 50, c.vendorId % 256, c.vendorId / 256, c.productId % 256, c.productId / 256,
      if c.haveSerial != 0 then 165 else 0,
      20 + (if c.remoteWakeup != 0 then 1 else 0) + (if c.enableIr != 0 then 2 else 0), 2]
  {
  }

  /** A descriptor tells what string it holds. */
  lemma StringRead(d: seq<byte>, pos: nat, s: seq<byte>)
    requires StringAt(d, pos, s)
    ensures DescriptorInside(d, pos) && StringOf(d, pos) == s && NextDescriptor(d, pos) == pos + 2 + 2 * |s|
  {
  }

  /** Parsing an image that holds c gives c, with its flags reduced to 0 and 1; so an image holds
      at most one such configuration. */
  lemma ParsesBack(d: seq<byte>, c: Conf)
    requires Encodes(d, c) && |d| == EEPROM_SIZE
    ensures Readable(d) && HeaderValid(d) && ParsedConf(d) == c.Normalized()
  {
    hide DescriptorInside, StringOf, NextDescriptor, StringAt;
    StringRead(d, STR_OFFSET, c.manufacturer);
    StringRead(d, ProductAt(c), c.product);
    StringRead(d, SerialAt(c), c.serial);
    TwoFlags(c);
  }

  lemma TwoFlags(c: Conf)
    ensures var b := 0x14 + Flag(c.remoteWakeup) + 2 * Flag(c.enableIr);
      b / 2 % 2 == Flag(c.enableIr) && b % 2 == Flag(c.remoteWakeup)
  {
  }

  /** What counts is in the first 83 bytes. */
  lemma EncodesPrefix(d: seq<byte>, e: seq<byte>, c: Conf)
    requires Encodes(d, c) && EndOf(c) <= 83 && |d| == |e| == EEPROM_SIZE && d[..83] == e[..83]
    ensures Encodes(e, c)
  {
    hide StringAt;
    assert SameOutside(d, e, 83, EEPROM_SIZE) by {
      forall k | 0 <= k < 83
        ensures d[k] == e[k]
      {
        assert d[..83][k] == e[..83][k];
      }
    }
    StringKept(d, e, 83, EEPROM_SIZE, STR_OFFSET, c.manufacturer);
    StringKept(d, e, 83, EEPROM_SIZE, ProductAt(c), c.product);
    StringKept(d, e, 83, EEPROM_SIZE, SerialAt(c), c.serial);
    HeaderKept(d, e, 83, EEPROM_SIZE, c);
  }

  // ---------------------------------------------------------------- the device

  /** The EEPROM behind the tuner: it logs the addresses that are written. A write may fail, and
      reading may fail when the address is set or at any byte. */
  class Device {
    const bytes: array<byte>
    const fails: nat -> bool
    const unreadable: bool
    const readFails: nat -> bool
    ghost var written: seq<nat>

    ghost predicate Valid()
    {
      bytes.Length == EEPROM_SIZE
    }

    constructor (contents: seq<byte>, fails: nat -> bool, unreadable: bool, readFails: nat -> bool)
      requires |contents| == EEPROM_SIZE
      ensures Valid() && fresh(bytes) && bytes[..] == contents && written == []
      ensures this.fails == fails && this.unreadable == unreadable && this.readFails == readFails
    {
      bytes := new byte[EEPROM_SIZE](i requires 0 <= i < EEPROM_SIZE => contents[i]);
      this.fails, this.unreadable, this.readFails := fails, unreadable, readFails;
      written := [];
    }

    /** Only bytes that differ are written, in order; the rest of the EEPROM stays as it is. A
        failed write ends it, with everything before it written. */
    method WriteEeprom(data: array<byte>, offset: byte, len: nat) returns (r: int, ghost done: nat)
      requires Valid() && len <= data.Length && data != bytes
      modifies bytes, this`written
      ensures len + offset > EEPROM_SIZE ==> r == -2 && bytes[..] == old(bytes[..])
      ensures len + offset <= EEPROM_SIZE ==>
        && done <= len && r == (if done == len then 0 else -3)
        && bytes[..] == Programmed(old(bytes[..]), data[..], offset, done)
        && (done < len ==> fails(offset + done) && data[done] != old(bytes[offset + done]))
        && written == old(written) + Differing(old(bytes[..]), data[..], offset, done)
    {
      hide Programmed, Differing;
      ghost var there, all := bytes[..], data[..];
      done := 0;
      if len + offset > EEPROM_SIZE {
        return -2, done;
      }
      var i := 0;
      NothingProgrammed(there, all, offset);
      while i < len
        invariant 0 <= i <= len && done == i && data[..] == all
        invariant bytes[..] == Programmed(old(bytes[..]), data[..], offset, i)
        invariant written == old(written) + Differing(old(bytes[..]), data[..], offset, i)
      {
        NextProgrammed(there, all, offset, i);
        if bytes[i + offset] != data[i] {
          if fails(i + offset) {
            return -3, done;
          }
          bytes[i + offset] := data[i];
          written := written + [i + offset];
        }
        i := i + 1;
        done := done + 1;
      }
      return 0, done;
    }

    /** The bytes in range, up to the first that cannot be read. */
    method ReadEeprom(data: array<byte>, offset: byte, len: nat) returns (r: int, ghost done: nat)
      requires Valid() && len <= data.Length && data != bytes
      modifies data
      ensures len + offset > EEPROM_SIZE ==> r == -2 && data[..] == old(data[..])
      ensures len + offset <= EEPROM_SIZE ==>
        && done <= len && (unreadable ==> done == 0)
        && (r == -3 || r == 1) && (r == 1 <==> !unreadable && done == len)
        && data[..] == bytes[offset..offset + done] + old(data[done..])
        && (forall a: nat :: offset <= a < offset + done ==> !readFails(a))
        && (r == -3 ==> unreadable || (done < len && readFails(offset + done)))
    {
      done := 0;
      if len + offset > EEPROM_SIZE {
        return -2, done;
      }
      if unreadable {
        return -3, done;
      }
      for i := 0 to len
        invariant done == i && data[..i] == bytes[offset..offset + i] && data[i..] == old(data[i..])
        invariant forall a: nat :: offset <= a < offset + i ==> !readFails(a)
      {
        if readFails(offset + i) {
          return -3, done;
        }
        data[i] := bytes[offset + i];
        done := done + 1;
      }
      return 1, done;
    }
  }

  /** The contents after the first n bytes of data have been written at offset. */
  function Programmed(there: seq<byte>, data: seq<byte>, offset: nat, n: nat): (d: seq<byte>)
    requires n <= |data| && offset + n <= |there|
    ensures |d| == |there|
    ensures forall k :: 0 <= k < |d| ==> d[k] == if offset <= k < offset + n then data[k - offset] else there[k]
  {
    there[..offset] + data[..n] + there[offset + n..]
  }

  lemma NothingProgrammed(there: seq<byte>, data: seq<byte>, offset: nat)
    requires offset <= |there|
    ensures Programmed(there, data, offset, 0) == there && Differing(there, data, offset, 0) == []
  {
  }

  lemma NextProgrammed(there: seq<byte>, data: seq<byte>, offset: nat, n: nat)
    requires n < |data| && offset + n < |there|
    ensures var d := Programmed(there, data, offset, n);
      d[offset + n] == there[offset + n] && Programmed(there, data, offset, n + 1) == d[offset + n := data[n]]
    ensures Differing(there, data, offset, n + 1) ==
      Differing(there, data, offset, n) + (if there[offset + n] != data[n] then [offset + n] else [])
  {
  }

  /** The addresses of the first n bytes of data that differ from what is there. */
  function Differing(there: seq<byte>, data: seq<byte>, offset: nat, n: nat): seq<nat>
    requires n <= |data| && offset + n <= |there|
  {
    if n == 0 then []
    else Differing(there, data, offset, n - 1) + (if there[offset + n - 1] != data[n - 1] then [offset + n - 1] else [])
  }

  lemma FirstHalf(there: seq<byte>, image: seq<byte>, now: seq<byte>)
    requires |there| == |image| == EEPROM_SIZE && now == Programmed(there, image, 0, 128)
    ensures |now| == EEPROM_SIZE && now[..83] == image[..83]
  {
    hide Programmed;
  }

  lemma UpperHalf(there: seq<byte>, image: seq<byte>, now: seq<byte>, n: nat)
    requires |there| == |image| == EEPROM_SIZE && n <= 128 && now == Programmed(there, image, 0, n)
    ensures |now| == EEPROM_SIZE && now[128..] == there[128..]
  {
    hide Programmed;
  }

  lemma WholeRead(bytes: seq<byte>, was: seq<byte>, back: seq<byte>)
    requires |bytes| == |was| == EEPROM_SIZE && back == bytes[0..0 + EEPROM_SIZE] + was[EEPROM_SIZE..]
    ensures back == bytes
  {
  }

  /** Generating an image, programming its first 128 bytes and reading the device back recovers the
      configuration, whatever the device held, unless a write or a read fails. */
  method Reprogram(dev: Device, c: Conf, buf: array<byte>) returns (r: int, conf: Conf)
    requires dev.Valid() && buf.Length == EEPROM_SIZE && buf != dev.bytes && c.Strings()
    modifies buf, dev.bytes, dev`written
    ensures r == 0 ==> AllFit(c) && conf == c.Normalized()
    ensures r != 0 ==>
      !AllFit(c) || dev.unreadable || exists a: nat :: a < EEPROM_SIZE && (dev.fails(a) || dev.readFails(a))
    ensures dev.bytes[128..] == old(dev.bytes[128..])
    ensures !AllFit(c) ==> dev.bytes[..] == old(dev.bytes[..])
  {
    hide Encodes, Readable, ParsedConf, AllFit, TypesValid, Programmed, Differing;
    conf := c;
    var pos := GenEepromFromConf(c, buf);
    if pos < 0 {
      return -1, conf;
    }
    ghost var there, image := dev.bytes[..], buf[..];
    ghost var done;
    r, done := dev.WriteEeprom(buf, 0, 128);
    UpperHalf(there, image, dev.bytes[..], done);
    if r < 0 {
      return;
    }
    FirstHalf(there, image, dev.bytes[..]);
    var back := new byte[EEPROM_SIZE];
    ghost var was := back[..];
    ghost var count;
    r, count := dev.ReadEeprom(back, 0, EEPROM_SIZE);
    if r < 0 {
      return;
    }
    WholeRead(dev.bytes[..], was, back[..]);
    EncodesPrefix(image, back[..], c);
    ParsesBack(back[..], c);
    var headerOk;
    conf, headerOk := ParseEepromToConf(back);
    r := 0;
  }
}
