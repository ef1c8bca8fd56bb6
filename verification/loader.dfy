/**
  The line-by-line logic of the program loader, without opening the file.

  Each line is cut at its first `#`, stripped of surrounding whitespace and,
  unless nothing is left, read as a base-2 literal and kept as its 8-digit
  (at least) binary text.  Only after every line has been read are the
  kept texts parsed once more and written to addresses 0, 1, 2, ... of a
  zeroed memory.  A malformed literal anywhere fails the load before any
  cell is written; more literals than cells fail at address 255.
 */
module Loader {
  import opened Machine

  /** The characters the host's strip() removes, restricted to ASCII. */
  predicate IsSpace(c: char)
  {
    c == ' ' || 9 <= c as int <= 13 || 28 <= c as int <= 31
  }

  /** The text before the first `#` of a line (the whole line when it has none). */
  function BeforeComment(line: string): (r: string)
    ensures r <= line
    ensures '#' !in r
    ensures |r| < |line| ==> line[|r|] == '#'
  {
    if line == [] || line[0] == '#' then []
    else [line[0]] + BeforeComment(line[1..])
  }

  /** How many whitespace characters `t` starts with. */
  function LeadingSpaces(t: string): (n: nat)
    ensures n <= |t|
    ensures forall i :: 0 <= i < n ==> IsSpace(t[i])
    ensures n < |t| ==> !IsSpace(t[n])
  {
    if t != [] && IsSpace(t[0]) then 1 + LeadingSpaces(t[1..]) else 0
  }

  /** The length of `t` without its trailing whitespace. */
  function ContentEnd(t: string): (n: nat)
    ensures n <= |t|
    ensures forall i :: n <= i < |t| ==> IsSpace(t[i])
    ensures 0 < n ==> !IsSpace(t[n - 1])
  {
    if t != [] && IsSpace(t[|t| - 1]) then ContentEnd(t[..|t| - 1]) else |t|
  }

  /** Drops whitespace at both ends. */
  function Strip(t: string): string
  {
    var rest := t[LeadingSpaces(t)..];
    rest[..ContentEnd(rest)]
  }

  /**
    A stripped text is a slice of the original with whitespace only outside
    it, and it neither starts nor ends with whitespace; only an
    all-whitespace text strips to nothing.
   */
  lemma StripSpec(t: string)
    ensures var r, lo := Strip(t), LeadingSpaces(t);
      && lo + |r| <= |t| && r == t[lo..lo + |r|]
      && (forall i :: 0 <= i < lo ==> IsSpace(t[i]))
      && (forall i :: lo + |r| <= i < |t| ==> IsSpace(t[i]))
      && (r == [] || (!IsSpace(r[0]) && !IsSpace(r[|r| - 1])))
    ensures Strip(t) == [] <==> forall i :: 0 <= i < |t| ==> IsSpace(t[i])
  {
    var lo := LeadingSpaces(t);
    var rest := t[lo..];
    var hi := ContentEnd(rest);
    var r := Strip(t);
    assert r == rest[..hi] && |r| == hi;
    assert r == t[lo..lo + hi];
    assert forall i :: lo + hi <= i < |t| ==> IsSpace(t[i]) by {
      forall i | lo + hi <= i < |t|
        ensures IsSpace(t[i])
      {
        assert t[i] == rest[i - lo];
      }
    }
    assert r != [] ==> !IsSpace(r[0]) && !IsSpace(r[|r| - 1]) by {
      if r != [] {
        assert r[0] == t[lo] && r[|r| - 1] == rest[hi - 1];
      }
    }
    assert r == [] ==> forall i :: 0 <= i < |t| ==> IsSpace(t[i]) by {
      if r == [] {
        assert hi == 0;
      }
    }
    assert (forall i :: 0 <= i < |t| ==> IsSpace(t[i])) ==> r == [] by {
      if forall i :: 0 <= i < |t| ==> IsSpace(t[i]) {
        assert lo == |t|;
      }
    }
  }

  /** What a line contributes: the stripped text before its comment, empty for a blank line. */
  function Payload(line: string): string
  {
    Strip(BeforeComment(line))
  }

  predicate IsBit(c: char)
  {
    c == '0' || c == '1'
  }

  /** A non-empty run of binary digits. */
  predicate IsDigits(d: string)
  {
    d != [] && forall i :: 0 <= i < |d| ==> IsBit(d[i])
  }

  /** The value of binary digits, most significant first, read left to right. */
  function DigitsValue(d: string): nat
    requires forall i :: 0 <= i < |d| ==> IsBit(d[i])
  {
    if d == [] then 0
    else 2 * DigitsValue(d[..|d| - 1]) + (if d[|d| - 1] == '1' then 1 else 0)
  }

  /** The text starts with `0b` or `0B`. */
  predicate HasBinaryPrefix(text: string)
  {
    2 <= |text| && text[0] == '0' && (text[1] == 'b' || text[1] == 'B')
  }

  /**
    Reads a base-2 literal: an optional `0b`/`0B` prefix and then at least
    one binary digit.  Anything else is malformed.
   */
  function ParseBase2(text: string): (r: Result<nat>)
    ensures r.Ok? <==> IsDigits(text) || (HasBinaryPrefix(text) && IsDigits(text[2..]))
    ensures r.Err? ==> r.fault == MalformedLiteral(text)
    ensures IsDigits(text) ==> r == Ok(DigitsValue(text))
    ensures HasBinaryPrefix(text) && IsDigits(text[2..]) ==> r == Ok(DigitsValue(text[2..]))
    ensures text == [] ==> r.Err?
  {
    var digits :=
      if HasBinaryPrefix(text) then text[2..] else text;
    if IsDigits(digits) then Ok(DigitsValue(digits)) else Err(MalformedLiteral(text))
  }

  /** The shortest binary text of `v`: no leading zero unless `v` is 0. */
  function ToBinary(v: nat): (r: string)
    ensures IsDigits(r) && DigitsValue(r) == v
    ensures 1 < |r| ==> r[0] == '1'
  {
    if v < 2 then [if v == 1 then '1' else '0']
    else
      var high, low := ToBinary(v / 2), if v % 2 == 1 then '1' else '0';
      assert (high + [low])[..|high|] == high;
      high + [low]
  }

  /** `k` zero digits. */
  function Zeros(k: nat): (r: string)
    ensures |r| == k && forall i :: 0 <= i < k ==> r[i] == '0'
  {
    seq(k, _ => '0')
  }

  lemma {:induction false} ZerosValue(k: nat)
    ensures DigitsValue(Zeros(k)) == 0
    decreases k
  {
    if k > 0 {
      assert Zeros(k)[..k - 1] == Zeros(k - 1);
      ZerosValue(k - 1);
    }
  }

  /** Leading zeros do not change the value of binary digits. */
  lemma {:induction false} LeadingZeros(k: nat, d: string)
    requires forall i :: 0 <= i < |d| ==> IsBit(d[i])
    ensures DigitsValue(Zeros(k) + d) == DigitsValue(d)
    decreases |d|
  {
    if d == [] {
      assert Zeros(k) + d == Zeros(k);
      ZerosValue(k);
    } else {
      var init := d[..|d| - 1];
      assert (Zeros(k) + d)[..|Zeros(k) + d| - 1] == Zeros(k) + init;
      LeadingZeros(k, init);
    }
  }

  /** `v` in binary, left-padded with zeros to at least 8 digits (the `08b` format). */
  function Format08b(v: nat): (r: string)
    ensures IsDigits(r) && 8 <= |r|
    ensures DigitsValue(r) == v
  {
    var bits := ToBinary(v);
    if |bits| < 8 then
      LeadingZeros(8 - |bits|, bits);
      Zeros(8 - |bits|) + bits
    else bits
  }

  /** Formatting a value with `08b` and reading it back, with or without `0b`, gives the value. */
  lemma FormatRoundTrip(v: nat)
    ensures ParseBase2(Format08b(v)) == Ok(v)
    ensures ParseBase2("0b" + Format08b(v)) == Ok(v)
  {
    var f := Format08b(v);
    assert ("0b" + f)[2..] == f;
  }

  /** The payloads of the non-blank lines, in order: one per value the program will hold. */
  function Literals(lines: seq<string>): (r: seq<string>)
    ensures |r| <= |lines|
    ensures forall lit :: lit in r ==> lit != []
  {
    if lines == [] then []
    else
      var head := Payload(lines[0]);
      (if head == [] then [] else [head]) + Literals(lines[1..])
  }

  /** Every non-blank line holds a well-formed literal. */
  ghost predicate WellFormed(lines: seq<string>)
  {
    forall lit :: lit in Literals(lines) ==> ParseBase2(lit).Ok?
  }

  /** The values the non-blank lines denote, in order. */
  ghost function Values(lines: seq<string>): (r: seq<nat>)
    requires WellFormed(lines)
    ensures |r| == |Literals(lines)|
  {
    if lines == [] then []
    else
      var head := Payload(lines[0]);
      assert forall lit :: lit in Literals(lines[1..]) ==> lit in Literals(lines);
      (if head == [] then [] else [ParseBase2(head).value]) + Values(lines[1..])
  }

  /** The `08b` texts of `values`, in order. */
  function Formats(values: seq<nat>): (r: seq<string>)
    ensures |r| == |values|
    ensures forall i :: 0 <= i < |values| ==> r[i] == Format08b(values[i])
  {
    seq(|values|, i requires 0 <= i < |values| => Format08b(values[i]))
  }

  /** The first line contributes its payload, if any, ahead of the rest's literals and values. */
  lemma LinesCons(lines: seq<string>)
    requires lines != []
    ensures var head, rest := Payload(lines[0]), lines[1..];
      && Literals(lines) == (if head == [] then Literals(rest) else [head] + Literals(rest))
      && (WellFormed(lines) <==> (head == [] || ParseBase2(head).Ok?) && WellFormed(rest))
      && (WellFormed(lines) ==>
            Values(lines) == (if head == [] then Values(rest) else [ParseBase2(head).value] + Values(rest)))
  {
    var head, rest := Payload(lines[0]), lines[1..];
    assert [] + Literals(rest) == Literals(rest);
    if WellFormed(lines) {
      assert [] + Values(rest) == Values(rest);
    }
  }

  lemma FormatsCons(v: nat, values: seq<nat>)
    ensures Formats([v] + values) == [Format08b(v)] + Formats(values)
  {
  }

  /** The first line's value, unless the line is blank, comes ahead of the rest's values. */
  lemma ValuesCons(lines: seq<string>)
    requires lines != [] && WellFormed(lines)
    ensures WellFormed(lines[1..])
    ensures var head := Payload(lines[0]);
      && (head != [] ==> ParseBase2(head).Ok?)
      && Values(lines) == (if head == [] then [] else [ParseBase2(head).value]) + Values(lines[1..])
  {
    LinesCons(lines);
  }

  /** Literal-by-literal parsing results survive putting one run of literals before another. */
  lemma ParsedPointwiseAppend(hl: seq<string>, hv: seq<nat>, l: seq<string>, v: seq<nat>)
    requires |hl| == |hv| && |l| == |v|
    requires forall i :: 0 <= i < |hv| ==> ParseBase2(hl[i]) == Ok(hv[i])
    requires forall i :: 0 <= i < |v| ==> ParseBase2(l[i]) == Ok(v[i])
    ensures forall i :: 0 <= i < |hv + v| ==> ParseBase2((hl + l)[i]) == Ok((hv + v)[i])
  {
    forall i | 0 <= i < |hv + v|
      ensures ParseBase2((hl + l)[i]) == Ok((hv + v)[i])
    {
      if i >= |hv| {
        assert (hl + l)[i] == l[i - |hl|] && (hv + v)[i] == v[i - |hv|];
      }
    }
  }

  /** Element i of the values is what literal i parses to. */
  lemma {:induction false} ValuesPointwise(lines: seq<string>)
    requires WellFormed(lines)
    ensures forall i :: 0 <= i < |Values(lines)| ==> ParseBase2(Literals(lines)[i]) == Ok(Values(lines)[i])
    decreases |lines|
  {
    if lines != [] {
      var head, rest := Payload(lines[0]), lines[1..];
      ValuesCons(lines);
      var hl := if head == [] then [] else [head];
      var hv := if head == [] then [] else [ParseBase2(head).value];
      assert Literals(lines) == hl + Literals(rest) by {
        LiteralsCons(lines);
      }
      ValuesPointwise(rest);
      ParsedPointwiseAppend(hl, hv, Literals(rest), Values(rest));
    }
  }

  /** The first line's payload, unless blank, comes ahead of the rest's literals. */
  lemma LiteralsCons(lines: seq<string>)
    requires lines != []
    ensures var head := Payload(lines[0]);
      Literals(lines) == (if head == [] then [] else [head]) + Literals(lines[1..])
  {
  }

  lemma ConcatAssoc<T>(a: seq<T>, b: seq<T>, c: seq<T>)
    ensures a + (b + c) == (a + b) + c
  {
  }

  /** `LiteralsCons` for a first run of lines followed by a second. */
  lemma LiteralsConsAppend(a: seq<string>, b: seq<string>)
    requires a != []
    ensures var head := Payload(a[0]);
      Literals(a + b) == (if head == [] then [] else [head]) + Literals(a[1..] + b)
  {
    assert (a + b)[0] == a[0];
    assert (a + b)[1..] == a[1..] + b;
    LiteralsCons(a + b);
  }

  /** The literals of two runs of lines are those of the first followed by those of the second. */
  lemma {:induction false} LiteralsConcat(a: seq<string>, b: seq<string>)
    ensures Literals(a + b) == Literals(a) + Literals(b)
    decreases |a|
  {
    if a == [] {
      assert a + b == b;
    } else {
      var head := if Payload(a[0]) == [] then [] else [Payload(a[0])];
      var x, y := Literals(a[1..]), Literals(b);
      assert Literals(a + b) == head + Literals(a[1..] + b) by {
        LiteralsConsAppend(a, b);
      }
      assert Literals(a[1..] + b) == x + y by {
        LiteralsConcat(a[1..], b);
      }
      assert Literals(a) == head + x by {
        LiteralsCons(a);
      }
      ConcatAssoc(head, x, y);
    }
  }

  /** Each non-blank line's text is kept, and every kept literal is some line's text. */
  lemma {:induction false} LiteralsArePayloads(lines: seq<string>)
    ensures forall i :: 0 <= i < |lines| && Payload(lines[i]) != [] ==> Payload(lines[i]) in Literals(lines)
    ensures forall lit :: lit in Literals(lines) ==> exists i :: 0 <= i < |lines| && Payload(lines[i]) == lit
    decreases |lines|
  {
    if lines != [] {
      LiteralsCons(lines);
      LiteralsArePayloads(lines[1..]);
      forall i | 1 <= i < |lines|
        ensures lines[i] == lines[1..][i - 1]
      {
      }
    }
  }

  /**
    The first pass over the lines: keeps the `08b` text of each non-blank
    line's value; the first malformed literal ends it with an error.
   */
  function ParseProgram(lines: seq<string>): (r: Result<seq<string>>)
    ensures r.Ok? <==> WellFormed(lines)
    ensures r.Ok? ==> r.value == Formats(Values(lines))
    ensures r.Err? ==> r.fault.MalformedLiteral? && r.fault.text in Literals(lines)
    ensures r.Err? ==> ParseBase2(r.fault.text).Err?
  {
    if lines == [] then Ok([])
    else
      var num := Payload(lines[0]);
      LinesCons(lines);
      if num == [] then ParseProgram(lines[1..])
      else
        match ParseBase2(num)
        case Err(f) => Err(f)
        case Ok(v) =>
          match ParseProgram(lines[1..])
          case Err(f) => Err(f)
          case Ok(rest) =>
            FormatsCons(v, Values(lines[1..]));
            Ok([Format08b(v)] + rest)
  }

  /**
    The second pass: parses each kept text, with a `0b` prefix, and writes
    it at `address`, `address + 1`, ...; writing past the last cell fails,
    and a text that does not parse fails before its cell is written.
   */
  function FillMemory(program: seq<string>, ram: Memory, address: nat): (r: Result<Memory>)
    requires address <= RAM_SIZE
    ensures r.Ok? <==>
      address + |program| <= RAM_SIZE &&
      forall i :: 0 <= i < |program| ==> ParseBase2("0b" + program[i]).Ok?
    ensures r.Ok? ==> forall i :: 0 <= i < |program| ==>
      ParseBase2("0b" + program[i]) == Ok(r.value[address + i])
    ensures r.Ok? ==> forall k :: 0 <= k < RAM_SIZE && !(address <= k < address + |program|) ==>
      r.value[k] == ram[k]
    ensures (forall i :: 0 <= i < |program| ==> ParseBase2("0b" + program[i]).Ok?) ==>
      RAM_SIZE < address + |program| ==> r == Err(MemoryIndex(RAM_SIZE))
    decreases |program|
  {
    if program == [] then Ok(ram)
    else
      var v :- ParseBase2("0b" + program[0]);
      if RAM_SIZE <= address then Err(MemoryIndex(address))
      else
        var r := FillMemory(program[1..], ram[address := v], address + 1);
        assert forall i :: 1 <= i < |program| ==> program[i] == program[1..][i - 1];
        r
  }

  /** Each `08b` text of `values`, with a `0b` prefix, parses back to its value. */
  lemma FormatsReparse(values: seq<nat>)
    ensures forall i :: 0 <= i < |values| ==> ParseBase2("0b" + Formats(values)[i]) == Ok(values[i])
  {
    forall i | 0 <= i < |values|
      ensures ParseBase2("0b" + Formats(values)[i]) == Ok(values[i])
    {
      FormatRoundTrip(values[i]);
    }
  }

  /** Filling a zeroed memory with the `08b` texts of `values` gives the image of `values`. */
  lemma FillFormatted(values: seq<nat>)
    ensures |values| <= RAM_SIZE ==> FillMemory(Formats(values), Image([]), 0) == Ok(Image(values))
    ensures RAM_SIZE < |values| ==> FillMemory(Formats(values), Image([]), 0) == Err(MemoryIndex(RAM_SIZE))
  {
    var r := FillMemory(Formats(values), Image([]), 0);
    FormatsReparse(values);
    if |values| <= RAM_SIZE {
      assert r.Ok?;
      var m := r.value;
      forall i | 0 <= i < |values|
        ensures m[i] == values[i]
      {
        assert ParseBase2("0b" + Formats(values)[i]) == Ok(m[0 + i]);
      }
      assert forall k :: |values| <= k < RAM_SIZE ==> m[k] == Image([])[k];
      assert m == Image(values);
    }
  }

  /**
    Loads a program's lines into a fresh memory: the k-th non-blank line's
    value lands at address k and every other cell stays 0.
   */
  function Load(lines: seq<string>): (r: Result<Memory>)
    ensures r.Ok? <==> WellFormed(lines) && |Literals(lines)| <= RAM_SIZE
    ensures r.Ok? ==> r.value == Image(Values(lines))
    ensures !WellFormed(lines) ==> r.Err? && r.fault.MalformedLiteral?
    ensures WellFormed(lines) && RAM_SIZE < |Literals(lines)| ==> r == Err(MemoryIndex(RAM_SIZE))
  {
    match ParseProgram(lines)
    case Err(f) => Err(f)
    case Ok(program) =>
      FillFormatted(Values(lines));
      FillMemory(program, Image([]), 0)
  }

  /** Cutting at a `#` that follows `#`-free text gives back exactly that text. */
  lemma {:induction false} BeforeCommentPrefix(x: string, rest: string)
    requires '#' !in x && (rest == [] || rest[0] == '#')
    ensures BeforeComment(x + rest) == x
    decreases |x|
  {
    if x == [] {
      assert x + rest == rest;
    } else {
      assert (x + rest)[1..] == x[1..] + rest;
      BeforeCommentPrefix(x[1..], rest);
      assert [x[0]] + x[1..] == x;
    }
  }

  /** Binary digits with whitespace on both sides strip to the digits. */
  lemma StripPadded(lead: string, d: string, trail: string)
    requires IsDigits(d)
    requires forall i :: 0 <= i < |lead| ==> IsSpace(lead[i])
    requires forall i :: 0 <= i < |trail| ==> IsSpace(trail[i])
    ensures Strip(lead + d + trail) == d
  {
    var t := lead + d + trail;
    var lo := LeadingSpaces(t);
    assert lo == |lead| by {
      assert t[|lead|] == d[0];
      assert forall i :: 0 <= i < |lead| ==> t[i] == lead[i];
    }
    var rest := t[lo..];
    assert rest == d + trail;
    var hi := ContentEnd(rest);
    assert hi == |d| by {
      assert rest[|d| - 1] == d[|d| - 1];
      assert forall i :: |d| <= i < |rest| ==> IsSpace(rest[i]) by {
        forall i | |d| <= i < |rest|
          ensures IsSpace(rest[i])
        {
          assert rest[i] == trail[i - |d|];
        }
      }
    }
    assert rest[..hi] == d;
  }

  /**
    A line holding binary digits, with whitespace around them and an
    optional comment after, contributes exactly those digits.
   */
  lemma PayloadOfLiteral(lead: string, d: string, trail: string, comment: string)
    requires IsDigits(d)
    requires forall i :: 0 <= i < |lead| ==> IsSpace(lead[i])
    requires forall i :: 0 <= i < |trail| ==> IsSpace(trail[i])
    requires comment == [] || comment[0] == '#'
    ensures Payload(lead + d + trail + comment) == d
  {
    var t := lead + d + trail;
    assert '#' !in t by {
      forall i | 0 <= i < |t|
        ensures t[i] != '#'
      {
        if i < |lead| {
          assert t[i] == lead[i];
        } else if i < |lead| + |d| {
          assert t[i] == d[i - |lead|];
        } else {
          assert t[i] == trail[i - |lead| - |d|];
        }
      }
    }
    BeforeCommentPrefix(t, comment);
    StripPadded(lead, d, trail);
  }

  /** A line that is only whitespace, or whitespace and a comment, contributes nothing. */
  lemma PayloadOfBlank(lead: string, comment: string)
    requires forall i :: 0 <= i < |lead| ==> IsSpace(lead[i])
    requires comment == [] || comment[0] == '#'
    ensures Payload(lead + comment) == []
  {
    assert '#' !in lead by {
      assert forall i :: 0 <= i < |lead| ==> lead[i] != '#';
    }
    BeforeCommentPrefix(lead, comment);
    StripSpec(lead);
  }

  /**
    Writing each value as one `08b` line is a program text that reads back
    as those values.
   */
  lemma {:induction false} FormattedLines(values: seq<nat>)
    ensures Literals(Formats(values)) == Formats(values)
    ensures WellFormed(Formats(values))
    ensures Values(Formats(values)) == values
    decreases |values|
  {
    var lines := Formats(values);
    if values != [] {
      var v, vs := values[0], values[1..];
      assert values == [v] + vs;
      FormatsCons(v, vs);
      assert lines[1..] == Formats(vs);
      PayloadOfLiteral([], Format08b(v), [], []);
      assert [] + Format08b(v) + [] + [] == Format08b(v);
      FormatRoundTrip(v);
      FormattedLines(vs);
      LinesCons(lines);
    }
  }

  /** Loading the `08b` lines of at most 255 values gives the memory image of those values. */
  lemma LoadFormatted(values: seq<nat>)
    requires |values| <= RAM_SIZE
    ensures Load(Formats(values)) == Ok(Image(values))
  {
    FormattedLines(values);
  }
}
