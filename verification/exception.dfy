/** The pipeline's exception type: it records the message together with the
    file and line of the active traceback, falling back to line 0 and file
    "NA" when there is none, and renders all three in a fixed template. */
module Exceptions {
  import opened Wrappers

  /** The frame of the active traceback that is handling the exception. */
  datatype Traceback = Traceback(lineno: nat, fileName: string)

  /** What asking the interpreter for the active exception gives: a traceback
      or none, or the query itself raises. */
  datatype ExcInfo = Active(tb: Option<Traceback>) | QueryRaises

  datatype PipelineException = PipelineException(errorMessage: string, lineno: nat, fileName: string)

  /** `ETLPipelineException.__init__`. The message is the `str` of whatever
      the caller passed. */
  function NewPipelineException(errorMessage: string, details: ExcInfo): (e: PipelineException)
    ensures e.errorMessage == errorMessage
    ensures details.Active? && details.tb.Some? ==>
              e.lineno == details.tb.value.lineno && e.fileName == details.tb.value.fileName
    ensures !(details.Active? && details.tb.Some?) ==> e.lineno == 0 && e.fileName == "NA"
  {
    var tb := if details.Active? then details.tb else None;
    match tb
    case Some(frame) => PipelineException(errorMessage, frame.lineno, frame.fileName)
    case None => PipelineException(errorMessage, 0, "NA")
  }

  // ---------------------------------------------------------------------------
  // Decimal line numbers

  predicate IsDigit(c: char) {
    '0' <= c <= '9'
  }

  function DigitChar(d: nat): (c: char)
    requires d < 10
    ensures IsDigit(c)
  {
    "0123456789"[d]
  }

  function DigitValue(c: char): (d: nat)
    requires IsDigit(c)
    ensures d < 10
  {
    (c as int - '0' as int)
  }

  /** `str(n)` for a non-negative integer. */
  function NatToString(n: nat): (s: string)
    ensures s != []
    ensures forall i :: 0 <= i < |s| ==> IsDigit(s[i])
    decreases n
  {
    if n < 10 then [DigitChar(n)] else NatToString(n / 10) + [DigitChar(n % 10)]
  }

  /** The value of a string of decimal digits. */
  function ParseNat(s: string): nat
    requires forall i :: 0 <= i < |s| ==> IsDigit(s[i])
  {
    if s == [] then 0 else ParseNat(s[..|s| - 1]) * 10 + DigitValue(s[|s| - 1])
  }

  lemma {:induction false} ParseNatToString(n: nat)
    ensures ParseNat(NatToString(n)) == n
    decreases n
  {
    var s := NatToString(n);
    if n < 10 {
      assert DigitValue(DigitChar(n)) == n;
    } else {
      ParseNatToString(n / 10);
      assert s[..|s| - 1] == NatToString(n / 10);
      assert DigitValue(DigitChar(n % 10)) == n % 10;
    }
  }

  // ---------------------------------------------------------------------------
  // Rendering

  const Prefix := "Error occured in python script name ["
  const LineField := "] line number ["
  const MessageField := "] error message ["
  const Suffix := "]"

  /** `__str__`: file name, line number and message, in that order, in the
      fixed template. */
  function Render(e: PipelineException): (s: string)
    ensures |s| > |Prefix| && s[..|Prefix|] == Prefix
    ensures s[|s| - 1] == ']'
  {
    Prefix + e.fileName + LineField + NatToString(e.lineno) + MessageField + e.errorMessage + Suffix
  }

  /** Position of the first `c` in `s`. */
  function IndexOf(s: string, c: char): (r: Option<nat>)
    ensures r.None? <==> c !in s
    ensures r.Some? ==> r.value < |s| && s[r.value] == c && c !in s[..r.value]
  {
    if s == [] then None
    else if s[0] == c then Some(0)
    else
      match IndexOf(s[1..], c)
      case None => None
      case Some(k) =>
        assert s[..k + 1] == [s[0]] + s[1..][..k];
        Some(k + 1)
  }

  /** The first `c` in `a + b` is the head of `b` when `a` holds none. */
  lemma {:induction false} IndexOfAfter(a: string, b: string, c: char)
    requires c !in a && b != [] && b[0] == c
    ensures IndexOf(a + b, c) == Some(|a|)
  {
    if a != [] {
      assert (a + b)[1..] == a[1..] + b;
      IndexOfAfter(a[1..], b, c);
    }
  }

  /** The three fields of a rendered message. */
  datatype Fields = Fields(fileName: string, lineno: nat, errorMessage: string)

  predicate StartsWith(s: string, p: string) {
    |p| <= |s| && s[..|p|] == p
  }

  /** Reads the fields back out of a rendered message: the file name ends at
      the first `]`, the line number is the digits up to the next `]`, and the
      message is everything between its opening `[` and the final `]`. */
  function ParseRendered(s: string): Option<Fields> {
    if StartsWith(s, Prefix) then ParseFileField(s[|Prefix|..]) else None
  }

  function ParseFileField(t: string): Option<Fields> {
    match IndexOf(t, ']')
    case None => None
    case Some(k) =>
      if StartsWith(t[k..], LineField) then ParseLineField(t[..k], t[k + |LineField|..]) else None
  }

  function ParseLineField(fileName: string, t: string): Option<Fields> {
    match IndexOf(t, ']')
    case None => None
    case Some(m) =>
      var digits := t[..m];
      if digits != [] && (forall i :: 0 <= i < |digits| ==> IsDigit(digits[i])) then
        ParseMessageField(fileName, ParseNat(digits), t[m..])
      else None
  }

  function ParseMessageField(fileName: string, lineno: nat, t: string): Option<Fields> {
    if StartsWith(t, MessageField) && |t| > |MessageField| && t[|t| - 1] == ']' then
      Some(Fields(fileName, lineno, t[|MessageField|..|t| - 1]))
    else None
  }

  lemma MessageFieldRoundTrip(fileName: string, lineno: nat, errorMessage: string)
    ensures ParseMessageField(fileName, lineno, MessageField + errorMessage + Suffix) ==
            Some(Fields(fileName, lineno, errorMessage))
  {
    var t := MessageField + errorMessage + Suffix;
    assert t[..|MessageField|] == MessageField;
    assert t[|MessageField|..|t| - 1] == errorMessage;
  }

  lemma LineFieldRoundTrip(fileName: string, lineno: nat, errorMessage: string)
    ensures ParseLineField(fileName, NatToString(lineno) + MessageField + errorMessage + Suffix) ==
            Some(Fields(fileName, lineno, errorMessage))
  {
    var digits := NatToString(lineno);
    var rest := MessageField + errorMessage + Suffix;
    assert digits + MessageField + errorMessage + Suffix == digits + rest;
    assert ']' !in digits by {
      forall i | 0 <= i < |digits|
        ensures digits[i] != ']'
      {
        assert IsDigit(digits[i]);
      }
    }
    IndexOfAfter(digits, rest, ']');
    assert (digits + rest)[..|digits|] == digits;
    assert (digits + rest)[|digits|..] == rest;
    ParseNatToString(lineno);
    MessageFieldRoundTrip(fileName, lineno, errorMessage);
  }

  lemma FileFieldRoundTrip(fileName: string, line: string)
    requires ']' !in fileName
    ensures ParseFileField(fileName + LineField + line) == ParseLineField(fileName, line)
  {
    var rest := LineField + line;
    var t := fileName + rest;
    assert fileName + LineField + line == t;
    IndexOfAfter(fileName, rest, ']');
    assert t[|fileName|..] == rest;
    assert rest[..|LineField|] == LineField;
    assert t[..|fileName|] == fileName;
    assert t[|fileName| + |LineField|..] == line;
  }

  /** The rendered message determines the exception: parsing it gives back
      the file name, line number and message, provided the file name holds no
      `]` (a path seldom does). */
  lemma RenderRoundTrip(e: PipelineException)
    requires ']' !in e.fileName
    ensures ParseRendered(Render(e)) == Some(Fields(e.fileName, e.lineno, e.errorMessage))
  {
    var body := e.fileName + LineField + NatToString(e.lineno) + MessageField + e.errorMessage + Suffix;
    assert Render(e) == Prefix + body;
    assert (Prefix + body)[..|Prefix|] == Prefix;
    assert (Prefix + body)[|Prefix|..] == body;
    var line := NatToString(e.lineno) + MessageField + e.errorMessage + Suffix;
    assert body == e.fileName + LineField + line;
    FileFieldRoundTrip(e.fileName, line);
    LineFieldRoundTrip(e.fileName, e.lineno, e.errorMessage);
  }

  /** Without a traceback the rendered message names file "NA", line 0. */
  lemma NoTracebackRendering(errorMessage: string)
    ensures Render(NewPipelineException(errorMessage, Active(None))) ==
            "Error occured in python script name [NA] line number [0] error message [" + errorMessage + "]"
    ensures Render(NewPipelineException(errorMessage, QueryRaises)) ==
            Render(NewPipelineException(errorMessage, Active(None)))
  {
    assert NatToString(0) == "0";
  }
}
