/** The program loader's text handling: each line loses everything from its
    first `#` on and its surrounding whitespace; what is left, when not empty,
    is read as a base-2 integer and stored at the next memory address,
    starting from 0 (ls8/cpu.py:26, 33-45). */
module Loader {
  import opened Runtime

  /** The characters Python's `str.strip()` removes (those `str.isspace()` accepts). */
  predicate IsSpace(c: char) {
    || c == ' ' || c == '\t' || c == '\n' || c == '\r'
    || c == '\U{B}' || c == '\U{C}'
    || c == '\U{1C}' || c == '\U{1D}' || c == '\U{1E}' || c == '\U{1F}'
    || c == '\U{85}' || c == '\U{A0}' || c == '\U{1680}'
    || ('\U{2000}' <= c <= '\U{200A}')
    || c == '\U{2028}' || c == '\U{2029}' || c == '\U{202F}' || c == '\U{205F}'
    || c == '\U{3000}'
  }

  predicate AllSpace(t: string) {
    forall i :: 0 <= i < |t| ==> IsSpace(t[i])
  }

  function StripLeading(t: string): (r: string)
    ensures |r| <= |t| && r == t[|t| - |r|..]
    ensures |r| > 0 ==> !IsSpace(r[0])
    ensures AllSpace(t[..|t| - |r|])
  {
    if |t| > 0 && IsSpace(t[0]) then StripLeading(t[1..]) else t
  }

  function StripTrailing(t: string): (r: string)
    ensures |r| <= |t| && r == t[..|r|]
    ensures |r| > 0 ==> !IsSpace(r[|r| - 1])
    ensures AllSpace(t[|r|..])
  {
    if |t| > 0 && IsSpace(t[|t| - 1]) then StripTrailing(t[..|t| - 1]) else t
  }

  /** How many whitespace characters `t` starts with. */
  function LeadingSpace(t: string): (n: nat)
    ensures n <= |t| && AllSpace(t[..n])
    ensures n < |t| ==> !IsSpace(t[n])
  {
    |t| - |StripLeading(t)|
  }

  /** The characters of a whitespace slice are whitespace, one by one. */
  lemma SpaceSlice(t: string, a: nat, b: nat)
    requires a <= b <= |t| && AllSpace(t[a..b])
    ensures forall k :: a <= k < b ==> IsSpace(t[k])
  {
    forall k | a <= k < b
      ensures IsSpace(t[k])
    {
      assert t[a..b][k - a] == t[k];
    }
  }

  /** `str.strip()`: `t` without its leading and trailing whitespace. */
  function Strip(t: string): (r: string)
    ensures r == [] <==> AllSpace(t)
    ensures |r| > 0 ==> !IsSpace(r[0]) && !IsSpace(r[|r| - 1])
    ensures |r| <= |t|
  {
    StripTrailing(StripLeading(t))
  }

  /** What `strip()` keeps is the slice of `t` that starts after its leading
      whitespace and is followed by nothing but whitespace. */
  lemma StripIsSlice(t: string)
    ensures LeadingSpace(t) + |Strip(t)| <= |t|
    ensures Strip(t) == t[LeadingSpace(t)..LeadingSpace(t) + |Strip(t)|]
    ensures AllSpace(t[LeadingSpace(t) + |Strip(t)|..])
  {
    var l := StripLeading(t);
    var r := StripTrailing(l);
    assert Strip(t) == r && LeadingSpace(t) == |t| - |l|;
    PrefixOfSuffix(t, |t| - |l|, |r|);
  }

  /** A prefix of a suffix of `t` is a slice of `t`, and what follows it is `t`'s tail. */
  lemma PrefixOfSuffix<T>(t: seq<T>, n: nat, m: nat)
    requires n + m <= |t|
    ensures t[n..][..m] == t[n..n + m]
    ensures t[n..][m..] == t[n + m..]
  {
  }

  /** A non-space character after only whitespace is where `strip()` starts. */
  lemma LeadingSpaceAt(t: string, i: nat)
    requires i < |t| && AllSpace(t[..i]) && !IsSpace(t[i])
    ensures LeadingSpace(t) == i
  {
    var n := LeadingSpace(t);
    assert t[..i] == t[0..i] && t[..n] == t[0..n];
    SpaceSlice(t, 0, i);
    SpaceSlice(t, 0, n);
  }

  /** A non-space character before only whitespace is where `strip()` ends. */
  lemma StripEndAt(t: string, j: nat)
    requires 0 < j <= |t| && AllSpace(t[j..]) && !IsSpace(t[j - 1])
    ensures LeadingSpace(t) + |Strip(t)| == j
  {
    var r := Strip(t);
    StripIsSlice(t);
    var e := LeadingSpace(t) + |r|;
    assert t[j..] == t[j..|t|] && t[e..] == t[e..|t|];
    SpaceSlice(t, j, |t|);
    SpaceSlice(t, e, |t|);
    assert |r| > 0 ==> r[|r| - 1] == t[e - 1];
  }

  /** Whitespace around a slice with non-space ends is exactly what `strip()`
      removes: any such split of `t` names the stripped text. */
  lemma StripUnique(t: string, i: nat, j: nat)
    requires i <= j <= |t| && AllSpace(t[..i]) && AllSpace(t[j..])
    requires i < j ==> !IsSpace(t[i]) && !IsSpace(t[j - 1])
    ensures Strip(t) == t[i..j]
  {
    if i < j {
      LeadingSpaceAt(t, i);
      StripEndAt(t, j);
      StripIsSlice(t);
    } else {
      assert t[..i] == t[0..i] && t[j..] == t[j..|t|];
      SpaceSlice(t, 0, i);
      SpaceSlice(t, j, |t|);
      assert AllSpace(t);
    }
  }

  /** `line.split("#")[0]`: the text before the first `#`, or the whole line. */
  function BeforeHash(line: string): (r: string)
    ensures |r| <= |line| && r == line[..|r|]
    ensures forall i :: 0 <= i < |r| ==> r[i] != '#'
    ensures |r| < |line| ==> line[|r|] == '#'
  {
    if |line| == 0 || line[0] == '#' then [] else [line[0]] + BeforeHash(line[1..])
  }

  /** The instruction text of one program line (empty for blank and comment lines). */
  function Command(line: string): string {
    Strip(BeforeHash(line))
  }

  /** A text with no whitespace at either end survives `strip()` unchanged,
      and so does it when trailing whitespace follows it. */
  lemma StripTrailingSpace(p: string, pad: string)
    requires |p| > 0 && !IsSpace(p[0]) && !IsSpace(p[|p| - 1]) && AllSpace(pad)
    ensures Strip(p + pad) == p
  {
    var t := p + pad;
    assert StripLeading(t) == t;
    var r := StripTrailing(t);
    assert |r| <= |p| by {
      if |r| > |p| {
        assert false;
      }
    }
    assert forall i :: |r| <= i < |t| ==> IsSpace(t[i]) by {
      assert forall i :: |r| <= i < |t| ==> t[i] == t[|r|..][i - |r|];
    }
    assert !IsSpace(t[|p| - 1]);
  }

  /** `split("#")[0]` of a text without `#`, followed by nothing or by a `#`
      and anything, is that text. */
  lemma BeforeHashOf(p: string, rest: string)
    requires forall i :: 0 <= i < |p| ==> p[i] != '#'
    requires |rest| == 0 || rest[0] == '#'
    ensures BeforeHash(p + rest) == p
  {
    var line := p + rest;
    var b := BeforeHash(line);
    assert forall i :: 0 <= i < |p| ==> line[i] == p[i];
    assert |rest| > 0 ==> line[|p|] == '#';
    assert line[..|p|] == p;
  }

  /** A line holding an instruction, followed by whitespace (the newline
      included) and optionally by a `#` comment, contributes exactly that
      instruction text. */
  lemma CommandOfLine(p: string, pad: string, comment: string)
    requires |p| > 0 && !IsSpace(p[0]) && !IsSpace(p[|p| - 1])
    requires forall i :: 0 <= i < |p| ==> p[i] != '#'
    requires AllSpace(pad)
    ensures Command(p + pad) == p
    ensures Command(p + pad + "#" + comment) == p
  {
    var body := p + pad;
    assert forall i :: 0 <= i < |body| ==> body[i] != '#' by {
      forall i | 0 <= i < |body|
        ensures body[i] != '#'
      {
        if i >= |p| {
          assert body[i] == pad[i - |p|];
        }
      }
    }
    BeforeHashOf(body, []);
    assert body + [] == body;
    BeforeHashOf(body, "#" + comment);
    assert p + pad + "#" + comment == body + ("#" + comment);
    StripTrailingSpace(p, pad);
  }

  predicate IsBit(c: char) {
    c == '0' || c == '1'
  }

  predicate AllBits(t: string) {
    forall i :: 0 <= i < |t| ==> IsBit(t[i])
  }

  /** The digit part `int(_, 2)` accepts: bits separated by single underscores,
      starting and ending with a bit. */
  predicate DigitGroups(t: string) {
    && |t| > 0 && IsBit(t[0]) && IsBit(t[|t| - 1])
    && (forall i :: 0 <= i < |t| ==> IsBit(t[i]) || t[i] == '_')
    && NoDoubleUnderscore(t)
  }

  predicate NoDoubleUnderscore(t: string) {
    |t| < 2 || (!(t[0] == '_' && t[1] == '_') && NoDoubleUnderscore(t[1..]))
  }

  lemma {:induction false} AllBitsNoDoubleUnderscore(t: string)
    ensures AllBits(t) ==> NoDoubleUnderscore(t)
  {
    if |t| >= 2 && AllBits(t) {
      assert AllBits(t[1..]);
      AllBitsNoDoubleUnderscore(t[1..]);
    }
  }

  lemma {:induction false} NoDoubleUnderscoreAt(t: string)
    requires NoDoubleUnderscore(t)
    ensures forall k :: 0 <= k < |t| - 1 ==> !(t[k] == '_' && t[k + 1] == '_')
  {
    if |t| >= 2 {
      NoDoubleUnderscoreAt(t[1..]);
      assert forall k :: 1 <= k < |t| ==> t[1..][k - 1] == t[k];
    }
  }

  /** The value of a digit part read most significant bit first, underscores skipped. */
  function BitsValue(t: string): nat {
    if |t| == 0 then 0
    else if t[|t| - 1] == '_' then BitsValue(t[..|t| - 1])
    else 2 * BitsValue(t[..|t| - 1]) + (if t[|t| - 1] == '1' then 1 else 0)
  }

  function BitValue(c: char): nat {
    if c == '1' then 1 else 0
  }

  /** An eight-bit numeral's value, digit by digit, most significant first. */
  lemma ByteValue(t: string)
    requires |t| == 8 && AllBits(t)
    ensures BitsValue(t) == 128 * BitValue(t[0]) + 64 * BitValue(t[1]) + 32 * BitValue(t[2])
      + 16 * BitValue(t[3]) + 8 * BitValue(t[4]) + 4 * BitValue(t[5]) + 2 * BitValue(t[6]) + BitValue(t[7])
  {
    forall k | 1 <= k <= 8
      ensures BitsValue(t[..k]) == 2 * BitsValue(t[..k - 1]) + BitValue(t[k - 1])
    {
      assert t[..k][..k - 1] == t[..k - 1];
    }
    assert t[..8] == t;
    assert BitsValue(t[..1]) == BitValue(t[0]);
    assert BitsValue(t[..2]) == 2 * BitsValue(t[..1]) + BitValue(t[1]);
    assert BitsValue(t[..3]) == 2 * BitsValue(t[..2]) + BitValue(t[2]);
    assert BitsValue(t[..4]) == 2 * BitsValue(t[..3]) + BitValue(t[3]);
    assert BitsValue(t[..5]) == 2 * BitsValue(t[..4]) + BitValue(t[4]);
    assert BitsValue(t[..6]) == 2 * BitsValue(t[..5]) + BitValue(t[5]);
    assert BitsValue(t[..7]) == 2 * BitsValue(t[..6]) + BitValue(t[6]);
    assert BitsValue(t[..8]) == 2 * BitsValue(t[..7]) + BitValue(t[7]);
  }

  /** The characters `int(_, 2)` can accept anywhere in its argument. */
  predicate BinaryChar(c: char) {
    IsBit(c) || c == '_' || c == '+' || c == '-' || c == 'b' || c == 'B'
  }

  /** Where the digit part of `int(t, 2)`'s argument begins: after an
      optional sign and an optional `0b`/`0B` prefix, itself optionally
      followed by one underscore. */
  function DigitStart(t: string): (d: nat)
    ensures d <= |t|
    ensures forall k :: 0 <= k < d ==> BinaryChar(t[k])
    ensures forall k :: 1 <= k < d ==> t[k] != '+' && t[k] != '-'
    ensures forall k :: 0 <= k < d - 1 ==> t[k] != '_'
    ensures d > 0 ==> t[0] != '_'
  {
    var start := if |t| > 0 && (t[0] == '-' || t[0] == '+') then 1 else 0;
    var prefixed := |t| >= start + 2 && t[start] == '0' && (t[start + 1] == 'b' || t[start + 1] == 'B');
    if !prefixed then start
    else if |t| > start + 2 && t[start + 2] == '_' then start + 3
    else start + 2
  }

  /** What an accepted argument of `int(_, 2)` looks like, character by character. */
  lemma AcceptedShape(t: string)
    requires DigitGroups(t[DigitStart(t)..])
    ensures |t| > 0 && t[0] != '_' && IsBit(t[|t| - 1])
    ensures forall k :: 0 <= k < |t| ==> BinaryChar(t[k])
    ensures forall k :: 1 <= k < |t| ==> t[k] != '+' && t[k] != '-'
    ensures forall k :: 0 <= k < |t| - 1 ==> !(t[k] == '_' && t[k + 1] == '_')
  {
    var d := DigitStart(t);
    var digits := t[d..];
    assert forall k :: d <= k < |t| ==> t[k] == digits[k - d];
    NoDoubleUnderscoreAt(digits);
  }

  /** `int(t, 2)` on an already stripped `t`: an optional sign, an optional
      `0b`/`0B` prefix (which may be followed by one underscore), then the
      digit groups. None stands for the ValueError. */
  function ParseBinary(t: string): (r: Option<int>)
    ensures AllBits(t) && |t| > 0 ==> r == Some(BitsValue(t))
    ensures |t| == 0 ==> r == None
    ensures r.Some? && (|t| == 0 || t[0] != '-') ==> r.value >= 0
    ensures r.Some? ==> forall k :: 0 <= k < |t| ==> BinaryChar(t[k])
    ensures r.Some? ==> forall k :: 1 <= k < |t| ==> t[k] != '+' && t[k] != '-'
    ensures r.Some? ==> t[0] != '_' && IsBit(t[|t| - 1])
    ensures r.Some? ==> forall k :: 0 <= k < |t| - 1 ==> !(t[k] == '_' && t[k + 1] == '_')
  {
    var d := DigitStart(t);
    var digits := t[d..];
    AllBitsNoDoubleUnderscore(t);
    if DigitGroups(digits) then
      AcceptedShape(t);
      Some(if d > 0 && t[0] == '-' then -(BitsValue(digits) as int) else BitsValue(digits))
    else None
  }

  /** `int(_, 2)` accepts single underscores between digits. */
  lemma ParseBinaryUnderscore()
    ensures ParseBinary("1_0") == Some(2)
  {
    assert "1_0"[..2] == "1_" && "1_"[..1] == "1" && "1"[..0] == [];
    assert NoDoubleUnderscore("1_0") by { assert "1_0"[1..] == "_0"; assert "_0"[1..] == "0"; }
  }

  /** `int(_, 2)` accepts a leading sign. */
  lemma ParseBinarySigned()
    ensures ParseBinary("-101") == Some(-5)
  {
    assert "-101"[1..] == "101" && "101"[..2] == "10" && "10"[..1] == "1";
    assert NoDoubleUnderscore("101") by { assert "101"[1..] == "01"; assert "01"[1..] == "1"; }
  }

  /** `int(_, 2)` accepts the `0b`/`0B` prefix, optionally followed by one underscore. */
  lemma ParseBinaryPrefixed()
    ensures ParseBinary("0b_1") == Some(1) && ParseBinary("0B11") == Some(3)
  {
    assert "0b_1"[3..] == "1" && "0B11"[2..] == "11" && "11"[..1] == "1";
    assert NoDoubleUnderscore("11") by { assert "11"[1..] == "1"; }
  }

  /** `int(_, 2)` raises ValueError on a digit that is not a bit, a doubled or
      a leading underscore, and a bare sign. */
  lemma ParseBinaryRejects()
    ensures ParseBinary("2") == None && ParseBinary("1__0") == None
    ensures ParseBinary("_1") == None && ParseBinary("-") == None
  {
  }

  /** The `w`-character binary numeral of `n` (the program file's one-byte-per-line form when `w` is 8). */
  function Bits(n: nat, w: nat): (t: string)
    ensures |t| == w && AllBits(t)
  {
    if w == 0 then [] else Bits(n / 2, w - 1) + [if n % 2 == 0 then '0' else '1']
  }

  function Pow2(w: nat): (p: nat)
    ensures p > 0
  {
    if w == 0 then 1 else 2 * Pow2(w - 1)
  }

  /** Reading a written numeral gives back the number. */
  lemma {:induction false} BitsRoundTrip(n: nat, w: nat)
    requires n < Pow2(w)
    ensures BitsValue(Bits(n, w)) == n
    ensures w > 0 ==> ParseBinary(Bits(n, w)) == Some(n)
  {
    if w > 0 {
      var t := Bits(n, w);
      assert t[..|t| - 1] == Bits(n / 2, w - 1);
      BitsRoundTrip(n / 2, w - 1);
    }
  }

  /** Writing back a read numeral of all bits gives back the text. */
  lemma {:induction false} ValueRoundTrip(t: string)
    requires AllBits(t)
    ensures BitsValue(t) < Pow2(|t|)
    ensures Bits(BitsValue(t), |t|) == t
  {
    if |t| > 0 {
      var p := t[..|t| - 1];
      assert AllBits(p);
      ValueRoundTrip(p);
      var v := BitsValue(t);
      var b := if t[|t| - 1] == '1' then 1 else 0;
      assert v == 2 * BitsValue(p) + b;
      assert v / 2 == BitsValue(p) && v % 2 == b;
      assert t == p + [t[|t| - 1]];
    }
  }

  /** An eight-character line of bits parses to a byte, 0 through 255. */
  lemma ByteLineParses(t: string)
    requires |t| == 8 && AllBits(t)
    ensures ParseBinary(t).Some? && 0 <= ParseBinary(t).value < 256
  {
    ValueRoundTrip(t);
    assert Pow2(8) == 256;
  }

  /** A loaded memory image and the next free address. */
  datatype Image = Image(ram: seq<int>, count: nat)

  /** What one line of the program file amounts to. */
  datatype LineKind = Blank | Malformed(command: string) | Byte(value: int)

  /** The first half of the loop body: drop the comment, strip, read base 2. */
  function Classify(line: string): (k: LineKind)
    ensures k.Blank? <==> Command(line) == []
    ensures k.Malformed? ==> k.command == Command(line) && ParseBinary(Command(line)).None?
    ensures k.Byte? ==> Command(line) != [] && ParseBinary(Command(line)) == Some(k.value)
  {
    var command := Command(line);
    if command == [] then Blank
    else match ParseBinary(command)
      case None => Malformed(command)
      case Some(v) => Byte(v)
  }

  function Classified(lines: seq<string>): (ks: seq<LineKind>)
    ensures |ks| == |lines|
    ensures forall k :: 0 <= k < |lines| ==> ks[k] == Classify(lines[k])
  {
    seq(|lines|, k requires 0 <= k < |lines| => Classify(lines[k]))
  }

  /** The second half of the loop body, line after line from `address` on:
      skip a blank line, raise on a malformed one, store a byte and move to
      the next address (an IndexError once memory is full). */
  function Store(ram: seq<int>, kinds: seq<LineKind>, address: nat): (r: Result<Image>)
    ensures r.Ok? ==> |r.value.ram| == |ram| && r.value.count >= address
    decreases |kinds|
  {
    if |kinds| == 0 then Ok(Image(ram, address))
    else match kinds[0]
      case Blank => Store(ram, kinds[1..], address)
      case Malformed(command) => Err(NotBinary(command))
      case Byte(v) =>
        if address < |ram| then Store(ram[address := v], kinds[1..], address + 1)
        else Err(RamIndex(address))
  }

  /** Reference: the bytes of the classified lines in order, or None when one is malformed. */
  function Bytes(kinds: seq<LineKind>): (r: Option<seq<int>>)
    ensures r.Some? ==> |r.value| <= |kinds|
  {
    if |kinds| == 0 then Some([])
    else match (kinds[0], Bytes(kinds[1..]))
      case (Blank, rest) => rest
      case (Byte(v), Some(vs)) => Some([v] + vs)
      case _ => None
  }

  /** Reference: the commands of the lines that contribute a byte, in line order. */
  function Commands(lines: seq<string>): (cs: seq<string>)
    ensures |cs| <= |lines|
    ensures forall k :: 0 <= k < |cs| ==> cs[k] != []
  {
    if |lines| == 0 then []
    else if Command(lines[0]) == [] then Commands(lines[1..])
    else [Command(lines[0])] + Commands(lines[1..])
  }

  /** When no line is blank or comment-only, every line contributes, in order. */
  lemma {:induction false} CommandsWhenNoneBlank(lines: seq<string>)
    requires forall k :: 0 <= k < |lines| ==> Command(lines[k]) != []
    ensures |Commands(lines)| == |lines|
    ensures forall k :: 0 <= k < |lines| ==> Commands(lines)[k] == Command(lines[k])
  {
    if |lines| > 0 {
      CommandsWhenNoneBlank(lines[1..]);
      assert forall k :: 1 <= k < |lines| ==> lines[1..][k - 1] == lines[k];
    }
  }

  /** Reference: every command read as base 2, or None when one is malformed. */
  function ParseAll(cs: seq<string>): (r: Option<seq<int>>)
    ensures r.Some? ==> |r.value| == |cs|
  {
    if |cs| == 0 then Some([])
    else match (ParseBinary(cs[0]), ParseAll(cs[1..]))
      case (Some(v), Some(vs)) => Some([v] + vs)
      case _ => None
  }

  /** ParseAll reads the commands one by one, and fails exactly when one of them is malformed. */
  lemma {:induction false} ParseAllSpec(cs: seq<string>)
    ensures ParseAll(cs).Some? <==> forall k :: 0 <= k < |cs| ==> ParseBinary(cs[k]).Some?
    ensures ParseAll(cs).Some? ==> forall k :: 0 <= k < |cs| ==> ParseAll(cs).value[k] == ParseBinary(cs[k]).value
  {
    if |cs| > 0 {
      ParseAllSpec(cs[1..]);
      assert forall k :: 1 <= k < |cs| ==> cs[1..][k - 1] == cs[k];
    }
  }

  /** The classified lines yield the same bytes as parsing the contributing commands. */
  lemma {:induction false} ClassifiedBytes(lines: seq<string>)
    ensures Bytes(Classified(lines)) == ParseAll(Commands(lines))
  {
    if |lines| > 0 {
      var ks := Classified(lines);
      assert ks[1..] == Classified(lines[1..]);
      ClassifiedBytes(lines[1..]);
      if Command(lines[0]) != [] {
        assert Commands(lines) == [Command(lines[0])] + Commands(lines[1..]);
      }
    }
  }

  /** `image` holds `vs` at consecutive addresses from `address`, the rest of `ram` unchanged. */
  predicate Placed(ram: seq<int>, address: nat, vs: seq<int>, image: Image) {
    && address + |vs| <= |ram|
    && image.count == address + |vs|
    && |image.ram| == |ram|
    && (forall k :: 0 <= k < address ==> image.ram[k] == ram[k])
    && (forall k :: 0 <= k < |vs| ==> image.ram[address + k] == vs[k])
    && (forall k :: address + |vs| <= k < |ram| ==> image.ram[k] == ram[k])
  }

  /** `ram` with `vs` written over it from `address` on. */
  function Overlay(ram: seq<int>, address: nat, vs: seq<int>): (r: seq<int>)
    requires address + |vs| <= |ram|
    ensures |r| == |ram|
    ensures forall k :: 0 <= k < address ==> r[k] == ram[k]
    ensures forall k :: 0 <= k < |vs| ==> r[address + k] == vs[k]
    ensures forall k :: address + |vs| <= k < |ram| ==> r[k] == ram[k]
  {
    seq(|ram|, k requires 0 <= k < |ram| => if address <= k < address + |vs| then vs[k - address] else ram[k])
  }

  /** Storing one byte and then the rest is overlaying the byte and the rest together. */
  lemma OverlayCons(ram: seq<int>, address: nat, v: int, ws: seq<int>)
    requires address + 1 + |ws| <= |ram|
    ensures Overlay(ram[address := v], address + 1, ws) == Overlay(ram, address, [v] + ws)
  {
    var vs := [v] + ws;
    var o := Overlay(ram, address, vs);
    var o' := Overlay(ram[address := v], address + 1, ws);
    forall k | 0 <= k < |ram|
      ensures o'[k] == o[k]
    {
      if address + 1 <= k < address + 1 + |ws| {
        assert o'[address + 1 + (k - address - 1)] == ws[k - address - 1];
        assert o[address + (k - address)] == vs[k - address];
      } else if k == address {
        assert o[address + 0] == vs[0];
      }
    }
  }

  /** Storing succeeds exactly when no line is malformed and the bytes fit in
      memory from `address`; the bytes then sit at consecutive addresses from
      `address`, nothing else changes, and the next free address is just past
      them. */
  lemma {:induction false} StoreSpec(ram: seq<int>, kinds: seq<LineKind>, address: nat)
    requires address <= |ram|
    ensures Store(ram, kinds, address).Ok? <==> Bytes(kinds).Some? && address + |Bytes(kinds).value| <= |ram|
    ensures Store(ram, kinds, address).Ok? ==>
      Store(ram, kinds, address).value == Image(Overlay(ram, address, Bytes(kinds).value), address + |Bytes(kinds).value|)
    decreases |kinds|
  {
    if |kinds| == 0 {
      assert Overlay(ram, address, []) == ram;
    } else {
      match kinds[0]
      case Blank =>
        StoreSpec(ram, kinds[1..], address);
      case Malformed(_) =>
      case Byte(v) =>
        if address < |ram| {
          StoreSpec(ram[address := v], kinds[1..], address + 1);
          var ws := Bytes(kinds[1..]);
          if ws.Some? && address + 1 + |ws.value| <= |ram| {
            OverlayCons(ram, address, v, ws.value);
          }
        }
    }
  }

  /** The whole loader on a memory image, starting at address 0: a line
      contributes iff its text before `#`, stripped, is non-empty; loading
      succeeds iff every contributing line is valid base 2 and they fit in
      memory; their values then land at 0, 1, 2, ... in line order, their
      number is the count, and the rest of memory is unchanged. */
  function Load(ram: seq<int>, lines: seq<string>): (r: Result<Image>)
    ensures r.Ok? <==> ParseAll(Commands(lines)).Some? && |Commands(lines)| <= |ram|
    ensures r.Ok? ==> Placed(ram, 0, ParseAll(Commands(lines)).value, r.value)
  {
    StoreSpec(ram, Classified(lines), 0);
    ClassifiedBytes(lines);
    Store(ram, Classified(lines), 0)
  }

  /** One line holding an eight-bit numeral, then whitespace, then optionally
      a `#` comment, has that numeral as its instruction text. */
  lemma ByteLineCommand(line: string, bits: string, pad: string, comment: string)
    requires |bits| == 8 && AllBits(bits) && AllSpace(pad)
    requires line == bits + pad || line == bits + pad + "#" + comment
    ensures Command(line) == bits
  {
    assert IsBit(bits[0]) && IsBit(bits[7]);
    CommandOfLine(bits, pad, comment);
  }

  /** Lines each holding an eight-bit numeral, then whitespace, then
      optionally a `#` comment, contribute exactly those numerals, in order. */
  lemma ByteLinesCommands(lines: seq<string>, bits: seq<string>, pads: seq<string>, comments: seq<string>)
    requires |lines| == |bits| == |pads| == |comments|
    requires forall k :: 0 <= k < |bits| ==> |bits[k]| == 8 && AllBits(bits[k])
    requires forall k :: 0 <= k < |pads| ==> AllSpace(pads[k])
    requires forall k :: 0 <= k < |lines| ==>
      lines[k] == bits[k] + pads[k] || lines[k] == bits[k] + pads[k] + "#" + comments[k]
    ensures Commands(lines) == bits
  {
    forall k | 0 <= k < |lines|
      ensures Command(lines[k]) == bits[k]
    {
      ByteLineCommand(lines[k], bits[k], pads[k], comments[k]);
    }
    CommandsWhenNoneBlank(lines);
  }

  /** A program text whose every line is an eight-bit numeral, then
      whitespace (its newline, say), then optionally a `#` comment, loads
      those bytes at addresses 0, 1, 2, ... and leaves the rest of memory. */
  lemma LoadByteLines(ram: seq<int>, lines: seq<string>, bits: seq<string>, pads: seq<string>, comments: seq<string>)
    requires |lines| == |bits| == |pads| == |comments| <= |ram|
    requires forall k :: 0 <= k < |bits| ==> |bits[k]| == 8 && AllBits(bits[k])
    requires forall k :: 0 <= k < |pads| ==> AllSpace(pads[k])
    requires forall k :: 0 <= k < |lines| ==>
      lines[k] == bits[k] + pads[k] || lines[k] == bits[k] + pads[k] + "#" + comments[k]
    ensures Load(ram, lines).Ok?
    ensures forall k :: 0 <= k < |lines| ==> Load(ram, lines).value.ram[k] == BitsValue(bits[k])
    ensures forall a :: |lines| <= a < |ram| ==> Load(ram, lines).value.ram[a] == ram[a]
  {
    ByteLinesCommands(lines, bits, pads, comments);
    ParseAllSpec(bits);
    var vs := ParseAll(bits).value;
    assert forall k :: 0 <= k < |lines| ==> vs[k] == BitsValue(bits[k]);
    assert Placed(ram, 0, vs, Load(ram, lines).value);
  }
}
