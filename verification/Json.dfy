/** The hand-written JSON header of a stored plan: printer, key search and extraction.

    A key search can only match at a quote.  In an escaped value every quote follows a backslash and the
    closing quote is followed by a comma or a brace, so no value can be mistaken for a key. */
module Json {
  import opened Core

  // ---------------------------------------------------------------------------------------------
  // Escaping
  // ---------------------------------------------------------------------------------------------

  function EscapeChar(c: char): string {
    if c == '\"' then "\\\"" else if c == '\\' then "\\\\" else if c == '\n' then "\\n" else [c]
  }

  function Escape(s: string): string {
    if s == "" then "" else EscapeChar(s[0]) + Escape(s[1..])
  }

  lemma {:induction false} EscapeOfConcatenation(s: string, t: string)
    ensures Escape(s + t) == Escape(s) + Escape(t)
    decreases |s|
  {
    hide EscapeChar;
    if s == "" {
      assert s + t == t;
    } else {
      assert (s + t)[1..] == s[1..] + t;
      EscapeOfConcatenation(s[1..], t);
    }
  }

  lemma EscapeOfChar(c: char)
    ensures Escape([c]) == EscapeChar(c)
  {
    hide EscapeChar;
    assert [c][1..] == "";
  }

  method JsonEscape(s: string) returns (out: string)
    ensures out == Escape(s)
  {
    out := "";
    for i := 0 to |s|
      invariant out == Escape(s[..i])
    {
      assert s[..i + 1] == s[..i] + [s[i]];
      EscapeOfConcatenation(s[..i], [s[i]]);
      EscapeOfChar(s[i]);
      hide Escape;
      if s[i] == '\"' {
        out := out + "\\\"";
      } else if s[i] == '\\' {
        out := out + "\\\\";
      } else if s[i] == '\n' {
        out := out + "\\n";
      } else {
        out := out + [s[i]];
      }
    }
    assert s[..|s|] == s;
  }

  /** A backslash is dropped and the character after it kept, if there is one. */
  function Unescape(s: string): string
    decreases |s|
  {
    if s == "" then ""
    else if s[0] == '\\' && |s| > 1 then [s[1]] + Unescape(s[2..])
    else [s[0]] + Unescape(s[1..])
  }

  // ---------------------------------------------------------------------------------------------
  // Search
  // ---------------------------------------------------------------------------------------------

  /** What follows the first occurrence of `pattern`. */
  function After(text: string, pattern: string): Option<string>
    decreases |text|
  {
    if pattern <= text then Some(text[|pattern|..])
    else if text == "" then None
    else After(text[1..], pattern)
  }

  /** What precedes the first double quote. */
  function UpToQuote(text: string): Option<string>
    decreases |text|
  {
    if text == "" then None
    else if text[0] == '\"' then Some("")
    else
      var rest := UpToQuote(text[1..]);
      if rest.None? then None else Some([text[0]] + rest.value)
  }

  function ExtractString(json: string, key: string): Option<string> {
    var found := After(json, "\"" + key + "\":\"");
    if found.None? then None
    else
      var raw := UpToQuote(found.value);
      if raw.None? then None else Some(Unescape(raw.value))
  }

  /** The search finds the first occurrence. */
  lemma {:induction false} AfterIsFirst(text: string, pattern: string) returns (i: nat)
    ensures After(text, pattern).Some? <==> i <= |text| && pattern <= text[i..]
    ensures After(text, pattern).Some? ==>
              After(text, pattern) == Some(text[i..][|pattern|..]) && forall j :: 0 <= j < i ==> !(pattern <= text[j..])
    ensures After(text, pattern).None? ==> forall j :: 0 <= j <= |text| ==> !(pattern <= text[j..])
    decreases |text|
  {
    assert text[0..] == text;
    if pattern <= text || text == "" {
      i := 0;
    } else {
      var k := AfterIsFirst(text[1..], pattern);
      i := k + 1;
      forall j | 1 <= j <= |text|
        ensures text[j..] == text[1..][j - 1..]
      {
      }
      if k <= |text| - 1 {
        assert text[i..] == text[1..][k..];
      }
    }
  }

  /** What precedes the first quote has none, and there is nothing exactly if the text has no quote. */
  lemma {:induction false} UpToQuoteIs(text: string)
    ensures UpToQuote(text).None? <==> '\"' !in text
    ensures UpToQuote(text).Some? ==> '\"' !in UpToQuote(text).value && UpToQuote(text).value + "\"" <= text
    decreases |text|
  {
    if text != "" && text[0] != '\"' {
      UpToQuoteIs(text[1..]);
      assert text == [text[0]] + text[1..];
    }
  }

  method FindAfter(json: string, search: string) returns (pos: Option<nat>)
    ensures pos.None? <==> After(json, search).None?
    ensures pos.Some? ==> pos.value <= |json| && After(json, search) == Some(json[pos.value..])
  {
    var i := 0;
    while i <= |json| && !(search <= json[i..])
      invariant 0 <= i <= |json| + 1
      invariant i <= |json| ==> After(json, search) == After(json[i..], search)
      invariant i > |json| ==> After(json, search).None?
    {
      if i < |json| {
        assert json[i..][1..] == json[i + 1..];
      }
      i := i + 1;
    }
    if i > |json| {
      return None;
    }
    assert json[i..][|search|..] == json[i + |search|..];
    return Some(i + |search|);
  }

  method ScanToQuote(json: string, pos: nat) returns (end: Option<nat>)
    requires pos <= |json|
    ensures end.None? <==> UpToQuote(json[pos..]).None?
    ensures end.Some? ==> pos <= end.value < |json| && UpToQuote(json[pos..]) == Some(json[pos..end.value])
  {
    var i := pos;
    assert Continues(json, pos, pos) by {
      assert forall x: string :: json[pos..pos] + x == x;
    }
    while i < |json| && json[i] != '\"'
      invariant pos <= i <= |json|
      invariant Continues(json, pos, i)
    {
      QuoteFurther(json, pos, i);
      i := i + 1;
    }
    if i == |json| {
      return None;
    }
    assert UpToQuote(json[i..]) == Some("");
    assert json[pos..i] + "" == json[pos..i];
    return Some(i);
  }

  /** No quote lies between `pos` and `i`. */
  ghost predicate Continues(json: string, pos: nat, i: nat)
    requires pos <= i <= |json|
  {
    var far := UpToQuote(json[i..]);
    UpToQuote(json[pos..]) == if far.None? then None else Some(json[pos..i] + far.value)
  }

  lemma QuoteFurther(json: string, pos: nat, i: nat)
    requires pos <= i < |json| && json[i] != '\"'
    requires Continues(json, pos, i)
    ensures Continues(json, pos, i + 1)
  {
    assert json[i..][1..] == json[i + 1..];
    assert json[pos..i + 1] == json[pos..i] + [json[i]];
    var further := UpToQuote(json[i + 1..]);
    if further.Some? {
      assert json[pos..i] + ([json[i]] + further.value) == json[pos..i + 1] + further.value;
    }
  }

  lemma UnescapeTwo(json: string, i: nat, end: nat)
    requires i + 1 < end <= |json| && json[i] == '\\'
    ensures Unescape(json[i..end]) == [json[i + 1]] + Unescape(json[i + 2..end])
  {
    assert json[i..end][2..] == json[i + 2..end];
  }

  lemma UnescapeOne(json: string, i: nat, end: nat)
    requires i < end <= |json| && (json[i] != '\\' || i + 1 == end)
    ensures Unescape(json[i..end]) == [json[i]] + Unescape(json[i + 1..end])
  {
    assert json[i..end][1..] == json[i + 1..end];
  }

  lemma MoveChar(a: string, c: char, b: string)
    ensures a + ([c] + b) == (a + [c]) + b
  {
  }

  method UnescapeRange(json: string, pos: nat, end: nat) returns (val: string)
    requires pos <= end <= |json|
    ensures val == Unescape(json[pos..end])
  {
    val := "";
    var i := pos;
    assert Unescape(json[end..end]) == "";
    hide Unescape;
    while i < end
      invariant pos <= i <= end
      invariant val + Unescape(json[i..end]) == Unescape(json[pos..end])
    {
      if json[i] == '\\' && i + 1 < end {
        UnescapeTwo(json, i, end);
        MoveChar(val, json[i + 1], Unescape(json[i + 2..end]));
        i := i + 1;
        val := val + [json[i]];
      } else {
        UnescapeOne(json, i, end);
        MoveChar(val, json[i], Unescape(json[i + 1..end]));
        val := val + [json[i]];
      }
      i := i + 1;
    }
  }

  /** Find the key, find the closing quote, unescape what is in between. */
  method JsonExtractString(json: string, key: string) returns (r: Option<string>)
    ensures r == ExtractString(json, key)
  {
    var search := "\"";
    search := search + key;
    search := search + "\":\"";
    assert search == "\"" + key + "\":\"";
    var pos := FindAfter(json, search);
    if pos.None? {
      return None;
    }
    var end := ScanToQuote(json, pos.value);
    if end.None? {
      return None;
    }
    var val := UnescapeRange(json, pos.value, end.value);
    return Some(val);
  }

  // ---------------------------------------------------------------------------------------------
  // Numbers
  // ---------------------------------------------------------------------------------------------

  predicate IsDigit(c: char) {
    '0' <= c <= '9'
  }

  function Digit(d: nat): char
    requires d < 10
  {
    '0' + d as char
  }

  function PrintNat(n: nat): string {
    if n < 10 then [Digit(n)] else PrintNat(n / 10) + [Digit(n % 10)]
  }

  function PrintInt(i: int): string {
    if i < 0 then "-" + PrintNat(-i) else PrintNat(i)
  }

  /** The value of the leading digits, continuing from `acc`. */
  function ReadDigits(s: string, acc: nat): nat
    decreases |s|
  {
    if s == "" || !IsDigit(s[0]) then acc else ReadDigits(s[1..], 10 * acc + (s[0] - '0') as nat)
  }

  /** Conversion to a signed 64-bit integer, saturating at both ends. */
  function Clamp(i: int): I64 {
    if i > TWO_63 - 1 then TWO_63 - 1 else if i < 0 - TWO_63 then 0 - TWO_63 else i
  }

  predicate IsSpace(c: char) {
    c == ' ' || 9 <= c as int <= 13
  }

  function SkipSpaces(s: string): string
    decreases |s|
  {
    if s != "" && IsSpace(s[0]) then SkipSpaces(s[1..]) else s
  }

  /** The library's conversion: white space, an optional sign, digits; none if there is no digit. */
  function ParseInt(s: string): Option<I64> {
    var t := SkipSpaces(s);
    if t != "" && IsDigit(t[0]) then Some(Clamp(ReadDigits(t, 0)))
    else if |t| > 1 && t[0] == '-' && IsDigit(t[1]) then Some(Clamp(0 - ReadDigits(t[1..], 0)))
    else if |t| > 1 && t[0] == '+' && IsDigit(t[1]) then Some(Clamp(ReadDigits(t[1..], 0)))
    else None
  }

  /** White space, a sign and digits are read as far as they go; without a digit there is no number. */
  lemma ParseExamples()
    ensures ParseInt("7,") == Some(7) && ParseInt("-7}") == Some(0 - 7) && ParseInt("+7") == Some(7)
    ensures ParseInt("x") == None && ParseInt("-x") == None && ParseInt("\n7") == Some(7)
  {
    assert "7,"[1..] == "," && "-7}"[1..] == "7}" && "7}"[1..] == "}" && "+7"[1..] == "7" && "7"[1..] == "" && "\n7"[1..] == "7";
    assert ReadDigits("7,", 0) == ReadDigits(",", 7) == 7;
    assert ReadDigits("7}", 0) == ReadDigits("}", 7) == 7;
    assert ReadDigits("7", 0) == ReadDigits("", 7) == 7;
    assert SkipSpaces("\n7") == SkipSpaces("7") == "7";
  }

  function SkipBlanks(s: string): string
    decreases |s|
  {
    if s != "" && (s[0] == ' ' || s[0] == '\t') then SkipBlanks(s[1..]) else s
  }

  function ExtractInt(json: string, key: string): Option<I64> {
    var found := After(json, "\"" + key + "\":");
    if found.None? then None else ParseInt(SkipBlanks(found.value))
  }

  /** Find the key, skip blanks, convert what follows. */
  method JsonExtractInt(json: string, key: string) returns (r: Option<I64>)
    ensures r == ExtractInt(json, key)
  {
    var search := "\"";
    search := search + key;
    search := search + "\":";
    assert search == "\"" + key + "\":";
    var found := FindAfter(json, search);
    if found.None? {
      return None;
    }
    var pos := found.value;
    hide ParseInt;
    while pos < |json| && (json[pos] == ' ' || json[pos] == '\t')
      invariant pos <= |json|
      invariant SkipBlanks(json[found.value..]) == SkipBlanks(json[pos..])
    {
      assert json[pos..][1..] == json[pos + 1..];
      pos := pos + 1;
    }
    assert SkipBlanks(json[pos..]) == json[pos..];
    if pos >= |json| {
      NothingToParse();
      return None;
    }
    return ParseInt(json[pos..]);
  }

  lemma NothingToParse()
    ensures ParseInt("") == None
  {
  }

  // ---------------------------------------------------------------------------------------------
  // The plan header
  // ---------------------------------------------------------------------------------------------

  /** Issue time in microseconds, validity in milliseconds. */
  datatype Header = Header(
    planId: string,
    model: string,
    revision: string,
    term: U64,
    token: string,
    membershipRevision: U64,
    issuedAt: I64,
    validFor: I64)

  /** Whole milliseconds, truncating towards zero. */
  function Milliseconds(us: int): int {
    if us >= 0 then us / 1000 else -((-us) / 1000)
  }

  datatype Field = Text(key: string, text: string) | Number(key: string, number: int)

  function Render(f: Field, end: string): string {
    match f
    case Text(key, value) => "\"" + key + "\":\"" + Escape(value) + "\"" + end
    case Number(key, value) => "\"" + key + "\":" + PrintInt(value) + end
  }

  /** Fields separated by commas and closed by a brace. */
  function RenderAll(fs: seq<Field>): string
    requires fs != []
  {
    if |fs| == 1 then Render(fs[0], "}") else Render(fs[0], ",") + RenderAll(fs[1..])
  }

  function Fields(h: Header): (fs: seq<Field>)
    ensures |fs| == 8
  {
    [Text("plan_id", h.planId),
     Text("model_id", h.model),
     Text("manifest_revision", h.revision),
     Number("fence_term", h.term),
     Text("fence_token", h.token),
     Number("fence_membership_revision", h.membershipRevision),
     Number("issued_at_epoch_ms", Milliseconds(h.issuedAt)),
     Number("valid_for_ms", h.validFor)]
  }

  function HeaderText(h: Header): string {
    "{" + RenderAll(Fields(h))
  }

  function OrElse<T>(o: Option<T>, default: T): T {
    if o.Some? then o.value else default
  }

  /** What parsing yields; the issue time is the parsed number of milliseconds, in microseconds. */
  datatype ParsedHeader = ParsedHeader(
    planId: string,
    model: string,
    revision: string,
    term: U64,
    token: string,
    membershipRevision: U64,
    issuedAt: int,
    validFor: I64)

  function FromJson(json: string): ParsedHeader {
    ParsedHeader(
      OrElse(ExtractString(json, "plan_id"), ""),
      OrElse(ExtractString(json, "model_id"), ""),
      OrElse(ExtractString(json, "manifest_revision"), ""),
      ToU64(OrElse(ExtractInt(json, "fence_term"), 0)),
      OrElse(ExtractString(json, "fence_token"), ""),
      ToU64(OrElse(ExtractInt(json, "fence_membership_revision"), 0)),
      1000 * OrElse<int>(ExtractInt(json, "issued_at_epoch_ms"), 0),
      OrElse(ExtractInt(json, "valid_for_ms"), 0))
  }
}
