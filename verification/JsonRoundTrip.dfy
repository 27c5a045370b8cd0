/** Print-then-parse of the plan header: exactly when every field comes back. */
module JsonRoundTrip {
  import opened Core
  import opened Json

  const QUOTE: char := '\"'

  ghost predicate NoQuote(s: string) {
    QUOTE !in s
  }

  /** Strings that survive escaping and extraction. */
  ghost predicate Restorable(s: string) {
    QUOTE !in s && '\n' !in s
  }

  // ---------------------------------------------------------------------------------------------
  // One string
  // ---------------------------------------------------------------------------------------------

  /** What escaping and unescaping make of a string: a line break loses its backslash. */
  function Flat(s: string): (r: string)
    ensures |r| == |s|
    ensures forall i :: 0 <= i < |s| ==> r[i] == if s[i] == '\n' then 'n' else s[i]
  {
    if s == "" then "" else [if s[0] == '\n' then 'n' else s[0]] + Flat(s[1..])
  }

  lemma {:induction false} UnescapeOfEscape(s: string, t: string)
    requires NoQuote(s)
    ensures Unescape(Escape(s) + t) == Flat(s) + Unescape(t)
    decreases |s|
  {
    if s == "" {
      assert Escape(s) + t == t;
    } else {
      var rest := Escape(s[1..]) + t;
      UnescapeOfEscape(s[1..], t);
      hide Unescape, EscapeChar;
      assert Escape(s) + t == EscapeChar(s[0]) + rest;
      UnescapeOfChar(s[0], rest);
      FlatOfHead(s);
    }
  }

  lemma FlatOfHead(s: string)
    requires s != ""
    ensures Flat(s) == Flat([s[0]]) + Flat(s[1..])
  {
    hide Flat;
    var r := Flat([s[0]]) + Flat(s[1..]);
    assert |r| == |s|;
    assert forall i :: 1 <= i < |s| ==> r[i] == Flat(s[1..])[i - 1];
  }

  lemma UnescapeOfChar(c: char, rest: string)
    requires c != QUOTE
    ensures Unescape(EscapeChar(c) + rest) == Flat([c]) + Unescape(rest)
  {
    var text := EscapeChar(c) + rest;
    if c == '\\' || c == '\n' {
      assert text[2..] == rest;
    } else {
      assert text[1..] == rest;
    }
    assert Flat([c]) == [if c == '\n' then 'n' else c];
  }

  lemma {:induction false} EscapeHasNoQuote(s: string)
    requires NoQuote(s)
    ensures NoQuote(Escape(s))
    decreases |s|
  {
    if s != "" {
      EscapeHasNoQuote(s[1..]);
      assert NoQuote(EscapeChar(s[0]));
    }
  }

  lemma {:induction false} UpToQuoteOfClean(s: string, t: string)
    requires NoQuote(s)
    ensures UpToQuote(s + "\"" + t) == Some(s)
    decreases |s|
  {
    if s == "" {
      assert s + "\"" + t == "\"" + t;
    } else {
      assert (s + "\"" + t)[1..] == s[1..] + "\"" + t;
      UpToQuoteOfClean(s[1..], t);
      assert s[0] in s;
      assert s == [s[0]] + s[1..];
    }
  }

  /** Where the first quote of a string is. */
  function FirstQuote(s: string): (i: nat)
    requires QUOTE in s
    ensures i < |s| && s[i] == QUOTE && NoQuote(s[..i])
  {
    if s[0] == QUOTE then 0
    else
      var i := FirstQuote(s[1..]);
      assert s[..i + 1] == [s[0]] + s[1..][..i];
      i + 1
  }

  function ReadValue(text: string): Option<string> {
    var raw := UpToQuote(text);
    if raw.None? then None else Some(Unescape(raw.value))
  }

  lemma UnescapeBackslash()
    ensures Unescape("\\") == "\\"
  {
    assert "\\"[1..] == "";
  }

  /** A string with a quote is cut off at the quote. */
  lemma {:induction false} QuotedIsCut(s: string, t: string)
    requires QUOTE in s
    ensures ReadValue(Escape(s) + "\"" + t) != Some(s)
  {
    var i := FirstQuote(s);
    var a := s[..i];
    var b := s[i + 1..];
    assert s == a + ("\"" + b);
    hide Escape, UpToQuote, Unescape, FirstQuote;
    EscapeAroundQuote(a, b);
    var cut := Escape(a) + "\\";
    var rest := Escape(b) + "\"" + t;
    RegroupCut(Escape(a), Escape(b), t);
    EscapeHasNoQuote(a);
    UpToQuoteOfClean(cut, rest);
    UnescapeOfEscape(a, "\\");
    UnescapeBackslash();
    assert (Flat(a) + "\\")[i] == '\\';
  }

  lemma RegroupCut(x: string, y: string, t: string)
    ensures (x + "\\\"" + y) + "\"" + t == (x + "\\") + "\"" + (y + "\"" + t)
  {
  }

  lemma EscapeAroundQuote(a: string, b: string)
    ensures Escape(a + ("\"" + b)) == Escape(a) + "\\\"" + Escape(b)
  {
    EscapeOfConcatenation(a, "\"" + b);
    EscapeOfConcatenation("\"", b);
    EscapeOfChar(QUOTE);
    hide Escape;
    assert Escape(a + ("\"" + b)) == Escape(a) + (EscapeChar(QUOTE) + Escape(b));
  }

  /** For a single string, escape-then-extract is the identity exactly when it has no quote and no line break. */
  lemma {:induction false} ValueRestoredIff(s: string, t: string)
    ensures ReadValue(Escape(s) + "\"" + t) == Some(s) <==> Restorable(s)
  {
    if QUOTE in s {
      QuotedIsCut(s, t);
    } else {
      EscapeHasNoQuote(s);
      UpToQuoteOfClean(Escape(s), t);
      UnescapeOfEscape(s, "");
      assert Escape(s) + "" == Escape(s);
      assert Flat(s) + "" == Flat(s);
      if '\n' in s {
        var i :| 0 <= i < |s| && s[i] == '\n';
        assert Flat(s)[i] == 'n';
      } else {
        assert Flat(s) == s;
      }
    }
  }

  // ---------------------------------------------------------------------------------------------
  // Key search
  // ---------------------------------------------------------------------------------------------

  function Pattern(key: string, opening: string): string {
    "\"" + key + "\":" + opening
  }

  lemma {:induction false} SkipCleanText(s: string, t: string, key: string, opening: string)
    requires NoQuote(s)
    ensures After(s + t, Pattern(key, opening)) == After(t, Pattern(key, opening))
    decreases |s|
  {
    var p := Pattern(key, opening);
    if s == "" {
      assert s + t == t;
    } else {
      assert p[0] == QUOTE;
      assert (s + t)[0] == s[0] && s[0] in s;
      assert !(p <= s + t);
      assert (s + t)[1..] == s[1..] + t;
      SkipCleanText(s[1..], t, key, opening);
    }
  }

  /** Quote-free strings followed by a quote can only match as a whole. */
  lemma {:induction false} QuotedPrefix(a: string, u: string, b: string, v: string)
    requires NoQuote(a) && NoQuote(b)
    ensures a + "\"" + u <= b + "\"" + v <==> a == b && u <= v
    decreases |a|
  {
    var x := a + "\"" + u;
    var y := b + "\"" + v;
    if a == "" || b == "" {
      if a == "" && b == "" {
        assert x == "\"" + u && y == "\"" + v;
        assert x[1..] == u && y[1..] == v;
      } else if a == "" {
        assert x[0] == QUOTE && y[0] == b[0] && b[0] in b;
      } else {
        assert y[0] == QUOTE && x[0] == a[0] && a[0] in a;
      }
    } else {
      QuotedPrefix(a[1..], u, b[1..], v);
      assert x[1..] == a[1..] + "\"" + u && y[1..] == b[1..] + "\"" + v;
      assert a == [a[0]] + a[1..] && b == [b[0]] + b[1..];
      assert x == [a[0]] + x[1..] && y == [b[0]] + y[1..];
    }
  }

  lemma PrefixTail(p: string, text: string)
    requires p != "" && text != ""
    ensures p <= text ==> p[1..] <= text[1..]
  {
  }

  /** At a quote the key search goes on to the next quote, unless what is between them is the key and what
      follows is its colon. */
  lemma {:induction false} SkipQuoted(a: string, u: string, key: string, opening: string)
    requires NoQuote(a) && NoQuote(key)
    requires a == key ==> u != "" && u[0] != ':'
    ensures After("\"" + (a + "\"" + u), Pattern(key, opening)) == After("\"" + u, Pattern(key, opening))
  {
    var text := "\"" + (a + "\"" + u);
    var p := Pattern(key, opening);
    assert text[1..] == a + "\"" + u;
    assert p[1..] == key + "\"" + (":" + opening);
    QuotedPrefix(key, ":" + opening, a, u);
    PrefixTail(p, text);
    assert a + "\"" + u == a + ("\"" + u);
    SkipCleanText(a, "\"" + u, key, opening);
  }

  /** A key is a name: no quote, no backslash, and it does not start with punctuation. */
  ghost predicate ProperKey(key: string) {
    key != "" && NoQuote(key) && '\\' !in key && key[0] != ':' && key[0] != ','
  }

  /** An escaped value, from its opening quote to its closing one, holds no key. */
  lemma {:induction false} SkipValue(v: string, u: string, key: string, opening: string)
    requires ProperKey(key)
    requires u != "" && u[0] != ':'
    ensures After("\"" + (Escape(v) + "\"" + u), Pattern(key, opening)) == After("\"" + u, Pattern(key, opening))
    decreases |v|
  {
    hide After;
    if NoQuote(v) {
      EscapeHasNoQuote(v);
      SkipQuoted(Escape(v), u, key, opening);
    } else {
      var i := FirstQuote(v);
      var x, y := v[..i], v[i + 1..];
      assert v == x + ("\"" + y);
      SkipValue(y, u, key, opening);
      SkipEscapedQuote(x, y, u, key, opening);
    }
  }

  /** An escaped quote follows a backslash, which no key contains. */
  lemma {:induction false} SkipEscapedQuote(x: string, y: string, u: string, key: string, opening: string)
    requires ProperKey(key) && NoQuote(x)
    ensures After("\"" + (Escape(x + ("\"" + y)) + "\"" + u), Pattern(key, opening))
            == After("\"" + (Escape(y) + "\"" + u), Pattern(key, opening))
  {
    hide After, Escape;
    EscapeAroundQuote(x, y);
    EscapeHasNoQuote(x);
    var a := Escape(x) + "\\";
    assert a[|a| - 1] == '\\' && '\\' in a;
    RegroupValue(Escape(x), Escape(y), u);
    SkipQuoted(a, Escape(y) + "\"" + u, key, opening);
  }

  lemma RegroupValue(x: string, y: string, u: string)
    ensures (x + "\\\"" + y) + "\"" + u == (x + "\\") + "\"" + (y + "\"" + u)
  {
  }

  /** A field with another key is skipped, whatever its value is. */
  lemma {:induction false} SkipField(f: Field, rest: string, key: string, opening: string)
    requires ProperKey(f.key) && ProperKey(key) && f.key != key
    requires rest != "" && rest[0] == QUOTE
    ensures After(Render(f, ",") + rest, Pattern(key, opening)) == After(rest, Pattern(key, opening))
  {
    assert rest == "\"" + rest[1..];
    if f.Text? {
      SkipText(f.key, f.text, rest[1..], key, opening);
    } else {
      SkipNumber(f.key, f.number, rest[1..], key, opening);
    }
  }

  lemma {:induction false} SkipText(k: string, v: string, r: string, key: string, opening: string)
    requires ProperKey(k) && ProperKey(key) && k != key
    ensures After(Render(Text(k, v), ",") + ("\"" + r), Pattern(key, opening)) == After("\"" + r, Pattern(key, opening))
  {
    hide After, Escape;
    var last := "," + "\"" + r;
    var value := Escape(v) + "\"" + last;
    var colon := ":" + "\"" + value;
    RegroupText(k, Escape(v), r);
    SkipQuoted(k, colon, key, opening);
    SkipQuoted(":", value, key, opening);
    SkipValue(v, last, key, opening);
    SkipQuoted(",", r, key, opening);
  }

  lemma RegroupText(k: string, e: string, r: string)
    ensures ("\"" + k + "\":\"" + e + "\"" + ",") + ("\"" + r)
            == "\"" + (k + "\"" + (":" + "\"" + (e + "\"" + ("," + "\"" + r))))
  {
  }

  lemma {:induction false} SkipNumber(k: string, n: int, r: string, key: string, opening: string)
    requires ProperKey(k) && ProperKey(key) && k != key
    ensures After(Render(Number(k, n), ",") + ("\"" + r), Pattern(key, opening)) == After("\"" + r, Pattern(key, opening))
  {
    PrintedHasNoQuote(n);
    hide After, PrintInt;
    var a := ":" + PrintInt(n) + ",";
    RegroupNumber(k, PrintInt(n), r);
    SkipQuoted(k, a + "\"" + r, key, opening);
    SkipQuoted(a, r, key, opening);
  }

  lemma RegroupNumber(k: string, n: string, r: string)
    ensures ("\"" + k + "\":" + n + ",") + ("\"" + r) == "\"" + (k + "\"" + (":" + n + "," + "\"" + r))
  {
  }

  // ---------------------------------------------------------------------------------------------
  // Numbers
  // ---------------------------------------------------------------------------------------------

  lemma DigitValue(d: nat)
    requires d < 10
    ensures IsDigit(Digit(d)) && (Digit(d) - '0') as nat == d
  {
  }

  lemma {:induction false} PrintedIsDigits(n: nat)
    ensures PrintNat(n) != ""
    ensures forall i :: 0 <= i < |PrintNat(n)| ==> IsDigit(PrintNat(n)[i])
    decreases n
  {
    if n < 10 {
      DigitValue(n);
    } else {
      PrintedIsDigits(n / 10);
      DigitValue(n % 10);
    }
  }

  lemma {:induction false} ReadDigitsStep(s: string, d: nat, t: string, acc: nat)
    requires forall i :: 0 <= i < |s| ==> IsDigit(s[i])
    requires d < 10
    requires t == "" || !IsDigit(t[0])
    ensures ReadDigits(s + [Digit(d)] + t, acc) == 10 * ReadDigits(s, acc) + d
    decreases |s|
  {
    var text := s + [Digit(d)] + t;
    if s == "" {
      DigitValue(d);
      assert text[1..] == t;
    } else {
      assert text[1..] == s[1..] + [Digit(d)] + t;
      assert text[0] == s[0] && IsDigit(s[0]);
      ReadDigitsStep(s[1..], d, t, 10 * acc + (s[0] - '0') as nat);
    }
  }

  lemma {:induction false} ReadPrinted(n: nat, t: string)
    requires t == "" || !IsDigit(t[0])
    ensures ReadDigits(PrintNat(n) + t, 0) == n
    decreases n
  {
    if n < 10 {
      ReadDigitsStep("", n, t, 0);
      assert "" + [Digit(n)] + t == PrintNat(n) + t;
    } else {
      PrintedIsDigits(n / 10);
      ReadPrinted(n / 10, "");
      assert PrintNat(n / 10) + "" == PrintNat(n / 10);
      ReadDigitsStep(PrintNat(n / 10), n % 10, t, 0);
    }
  }

  lemma {:induction false} ParsePrinted(i: int, t: string)
    requires t != "" && !IsDigit(t[0])
    ensures ParseInt(SkipBlanks(PrintInt(i) + t)) == Some(Clamp(i))
  {
    var n := if i < 0 then -i else i;
    PrintedIsDigits(n);
    ReadPrinted(n, t);
    hide PrintNat, ReadDigits, Clamp, ParseInt, SkipBlanks, IsDigit;
    var digits := PrintNat(n) + t;
    assert digits[0] == PrintNat(n)[0];
    if i < 0 {
      Signed(PrintNat(n), t);
      ParseNegative(digits);
    } else {
      ParsePositive(digits);
    }
  }

  lemma Signed(a: string, t: string)
    ensures "-" + a + t == "-" + (a + t)
  {
  }

  lemma ParsePositive(digits: string)
    requires digits != "" && IsDigit(digits[0])
    ensures ParseInt(SkipBlanks(digits)) == Some(Clamp(ReadDigits(digits, 0)))
  {
    hide ReadDigits, Clamp;
  }

  lemma ParseNegative(digits: string)
    requires digits != "" && IsDigit(digits[0])
    ensures ParseInt(SkipBlanks("-" + digits)) == Some(Clamp(0 - ReadDigits(digits, 0)))
  {
    hide ReadDigits, Clamp;
    var text := "-" + digits;
    assert text[1] == digits[0] && text[1..] == digits;
  }

  lemma PrintedHasNoQuote(i: int)
    ensures NoQuote(PrintInt(i))
    ensures i >= 0 ==> PrintInt(i) == PrintNat(i)
  {
    var n := if i < 0 then -i else i;
    PrintedIsDigits(n);
    forall k | 0 <= k < |PrintNat(n)|
      ensures PrintNat(n)[k] != QUOTE
    {
      assert IsDigit(PrintNat(n)[k]);
    }
  }

  // ---------------------------------------------------------------------------------------------
  // Fields
  // ---------------------------------------------------------------------------------------------

  ghost predicate ProperFields(fs: seq<Field>) {
    && (forall i :: 0 <= i < |fs| ==> ProperKey(fs[i].key))
    && (forall i, j :: 0 <= i < j < |fs| ==> fs[i].key != fs[j].key)
  }

  lemma RenderStart(fs: seq<Field>)
    requires fs != []
    ensures RenderAll(fs) != "" && RenderAll(fs)[0] == QUOTE
  {
    hide Escape, PrintInt;
  }

  /** A key search finds its own field and no other, whatever the values before it are. */
  lemma {:induction false} FindKey(fs: seq<Field>, i: nat, opening: string)
    requires ProperFields(fs) && i < |fs|
    ensures After(RenderAll(fs), Pattern(fs[i].key, opening)) == After(RenderAll(fs[i..]), Pattern(fs[i].key, opening))
    decreases i
  {
    if i == 0 {
      assert fs[0..] == fs;
    } else {
      hide After, Render;
      RenderStart(fs[1..]);
      SkipField(fs[0], RenderAll(fs[1..]), fs[i].key, opening);
      FindKey(fs[1..], i - 1, opening);
      assert fs[1..][i - 1..] == fs[i..];
    }
  }

  function Rendered(fs: seq<Field>): string
    requires fs != []
  {
    "{" + RenderAll(fs)
  }

  lemma {:induction false} FindInText(fs: seq<Field>, i: nat, opening: string)
    requires ProperFields(fs) && i < |fs|
    ensures After(Rendered(fs), Pattern(fs[i].key, opening)) == After(RenderAll(fs[i..]), Pattern(fs[i].key, opening))
  {
    hide RenderAll;
    SkipCleanText("{", RenderAll(fs), fs[i].key, opening);
    FindKey(fs, i, opening);
  }

  lemma AfterPrefix(p: string, t: string)
    ensures After(p + t, p) == Some(t)
  {
    assert p <= p + t;
    assert (p + t)[|p|..] == t;
  }

  /** What is rendered from a field on. */
  function Following(fs: seq<Field>): string
    requires fs != []
  {
    if |fs| == 1 then "}" else "," + RenderAll(fs[1..])
  }

  lemma RenderFirst(fs: seq<Field>)
    requires fs != []
    ensures fs[0].Text? ==> RenderAll(fs) == "\"" + fs[0].key + "\":\"" + (Escape(fs[0].text) + "\"" + Following(fs))
    ensures fs[0].Number? ==> RenderAll(fs) == "\"" + fs[0].key + "\":" + (PrintInt(fs[0].number) + Following(fs))
  {
    hide Escape, PrintInt;
  }

  /** Each string field comes back exactly when it has no quote and no line break. */
  lemma {:induction false} TextRestoredIff(fs: seq<Field>, i: nat)
    requires ProperFields(fs) && i < |fs| && fs[i].Text?
    ensures ExtractString(Rendered(fs), fs[i].key) == Some(fs[i].text) <==> Restorable(fs[i].text)
  {
    var f := fs[i];
    FindInText(fs, i, "\"");
    RenderFirst(fs[i..]);
    hide After, RenderAll, Rendered, Restorable, Escape, Following;
    assert Pattern(f.key, "\"") == "\"" + f.key + "\":\"";
    AfterPrefix(Pattern(f.key, "\""), Escape(f.text) + "\"" + Following(fs[i..]));
    ValueRestoredIff(f.text, Following(fs[i..]));
  }

  /** Each number comes back, saturated at the signed range. */
  lemma {:induction false} NumberRestored(fs: seq<Field>, i: nat)
    requires ProperFields(fs) && i < |fs| && fs[i].Number?
    ensures ExtractInt(Rendered(fs), fs[i].key) == Some(Clamp(fs[i].number))
  {
    var f := fs[i];
    FindInText(fs, i, "");
    RenderFirst(fs[i..]);
    var t := Following(fs[i..]);
    assert t != "" && !IsDigit(t[0]);
    hide After, RenderAll, Rendered, PrintInt, Following, ParseInt, SkipBlanks;
    assert Pattern(f.key, "") == "\"" + f.key + "\":";
    AfterPrefix(Pattern(f.key, ""), PrintInt(f.number) + t);
    ParsePrinted(f.number, t);
  }

  // ---------------------------------------------------------------------------------------------
  // The header
  // ---------------------------------------------------------------------------------------------

  function KeyLength(i: nat): nat {
    match i
    case 0 => 7
    case 1 => 8
    case 2 => 17
    case 3 => 10
    case 4 => 11
    case 5 => 25
    case 6 => 18
    case _ => 12
  }

  lemma TextKeys()
    ensures ProperKey("plan_id") && ProperKey("model_id") && ProperKey("manifest_revision") && ProperKey("fence_token")
  {
  }

  lemma NumberKeys()
    ensures ProperKey("fence_term") && ProperKey("issued_at_epoch_ms") && ProperKey("valid_for_ms")
  {
  }

  lemma RevisionKey()
    ensures ProperKey("fence_membership_revision")
  {
  }

  lemma HeaderKey(h: Header, i: nat)
    requires i < 8
    ensures var key := Fields(h)[i].key;
            |key| == KeyLength(i) && ProperKey(key)
  {
    TextKeys();
    NumberKeys();
    RevisionKey();
    hide Milliseconds, ProperKey;
  }

  /** The keys of a header are names of different lengths. */
  lemma HeaderIsProper(h: Header)
    ensures ProperFields(Fields(h))
    ensures HeaderText(h) == Rendered(Fields(h))
  {
    var fs := Fields(h);
    hide Fields, ProperKey, RenderAll;
    forall i | 0 <= i < |fs|
      ensures ProperKey(fs[i].key) && |fs[i].key| == KeyLength(i)
    {
      HeaderKey(h, i);
    }
  }

  lemma RestoredValue(o: Option<string>, value: string)
    requires o == Some(value) <==> Restorable(value)
    ensures OrElse(o, "") == value <==> Restorable(value)
  {
  }

  /** For every header each string field comes back exactly when it has no quote and no line break, whatever
      the other fields are. */
  lemma {:induction false} StringsRestoredIff(h: Header)
    ensures var p := FromJson(HeaderText(h));
            && (p.planId == h.planId <==> Restorable(h.planId))
            && (p.model == h.model <==> Restorable(h.model))
            && (p.revision == h.revision <==> Restorable(h.revision))
            && (p.token == h.token <==> Restorable(h.token))
  {
    var fs := Fields(h);
    HeaderIsProper(h);
    hide ExtractString, ExtractInt, RenderAll, Rendered, ProperFields, HeaderText, Restorable;
    TextRestoredIff(fs, 0);
    TextRestoredIff(fs, 1);
    TextRestoredIff(fs, 2);
    TextRestoredIff(fs, 4);
    RestoredValue(ExtractString(HeaderText(h), "plan_id"), h.planId);
    RestoredValue(ExtractString(HeaderText(h), "model_id"), h.model);
    RestoredValue(ExtractString(HeaderText(h), "manifest_revision"), h.revision);
    RestoredValue(ExtractString(HeaderText(h), "fence_token"), h.token);
  }

  lemma MillisecondsInRange(us: I64)
    ensures Clamp(Milliseconds(us)) == Milliseconds(us)
  {
  }

  /** For every header the numbers come back saturated at the signed range, and the issue time to the
      millisecond, whatever the strings are. */
  lemma {:induction false} NumbersParsed(h: Header)
    ensures var p := FromJson(HeaderText(h));
            && p.term == ToU64(Clamp(h.term)) && p.membershipRevision == ToU64(Clamp(h.membershipRevision))
            && p.issuedAt == 1000 * Milliseconds(h.issuedAt) && p.validFor == h.validFor
  {
    var fs := Fields(h);
    HeaderIsProper(h);
    hide ExtractString, ExtractInt, RenderAll, Rendered, ProperFields, HeaderText;
    NumberRestored(fs, 3);
    NumberRestored(fs, 5);
    NumberRestored(fs, 6);
    NumberRestored(fs, 7);
    MillisecondsInRange(h.issuedAt);
  }

  /** The header with its issue time cut to the millisecond. */
  function Truncated(h: Header): ParsedHeader {
    ParsedHeader(h.planId, h.model, h.revision, h.term, h.token, h.membershipRevision,
                 1000 * Milliseconds(h.issuedAt), h.validFor)
  }

  ghost predicate StringsRestorable(h: Header) {
    Restorable(h.planId) && Restorable(h.model) && Restorable(h.revision) && Restorable(h.token)
  }

  lemma UnsignedRestoredIff(n: U64)
    ensures ToU64(Clamp(n)) == n <==> n < TWO_63
  {
  }

  /** Print-then-parse restores the header, with the issue time to the millisecond, exactly when no string
      field has a quote or a line break and both unsigned numbers are below 2^63. */
  lemma {:induction false} HeaderRestoredIff(h: Header)
    ensures FromJson(HeaderText(h)) == Truncated(h)
            <==> StringsRestorable(h) && h.term < TWO_63 && h.membershipRevision < TWO_63
  {
    StringsRestoredIff(h);
    NumbersParsed(h);
    UnsignedRestoredIff(h.term);
    UnsignedRestoredIff(h.membershipRevision);
    hide FromJson, HeaderText, Restorable, Milliseconds;
  }

  // ---------------------------------------------------------------------------------------------
  // The printer
  // ---------------------------------------------------------------------------------------------

  /** `json` is the text up to the opening of the value of field `k`. */
  ghost predicate PrintedUpTo(json: string, h: Header, start: string, k: nat) {
    && k < 8
    && start + RenderAll(Fields(h)[k..]) == HeaderText(h)
    && json == Opened(start, Fields(h)[k])
  }

  /** The text with the key of a field and the opening of its value. */
  function Opened(start: string, f: Field): string {
    start + "\"" + f.key + "\":" + if f.Text? then "\"" else ""
  }

  /** What is appended for a value and the key after it. */
  function ValueAndKey(f: Field, next: Field): string {
    (match f case Text(_, v) => Escape(v) + "\",\"" case Number(_, n) => PrintInt(n) + ",\"")
    + next.key + (if next.Text? then "\":\"" else "\":")
  }

  lemma PrintedFurther(json: string, h: Header, start: string, k: nat)
    requires k < 7 && PrintedUpTo(json, h, start, k)
    ensures PrintedUpTo(json + ValueAndKey(Fields(h)[k], Fields(h)[k + 1]), h, start + Render(Fields(h)[k], ","), k + 1)
  {
    var fs := Fields(h);
    hide Escape, PrintInt, HeaderText, Fields;
    var f, rest := fs[k], fs[k + 1..];
    assert fs[k..][1..] == rest;
    assert RenderAll(fs[k..]) == Render(f, ",") + RenderAll(rest);
    assert start + RenderAll(fs[k..]) == (start + Render(f, ",")) + RenderAll(rest);
    hide RenderAll;
    Further(start, f, fs[k + 1]);
  }

  lemma Further(start: string, f: Field, g: Field)
    ensures Opened(start, f) + ValueAndKey(f, g) == Opened(start + Render(f, ","), g)
  {
    hide Escape, PrintInt;
    if f.Text? {
      FurtherText(start, f.key, Escape(f.text), g.key, if g.Text? then "\"" else "");
    } else {
      FurtherNumber(start, f.key, PrintInt(f.number), g.key, if g.Text? then "\"" else "");
    }
    assert "\":" + "\"" == "\":\"" && "\":" + "" == "\":";
  }

  lemma FurtherText(start: string, k: string, e: string, g: string, opening: string)
    ensures (start + "\"" + k + "\":" + "\"") + (e + "\",\"" + g + ("\":" + opening))
            == (start + ("\"" + k + "\":\"" + e + "\"" + ",")) + "\"" + g + "\":" + opening
  {
  }

  lemma FurtherNumber(start: string, k: string, n: string, g: string, opening: string)
    ensures (start + "\"" + k + "\":" + "") + (n + ",\"" + g + ("\":" + opening))
            == (start + ("\"" + k + "\":" + n + ",")) + "\"" + g + "\":" + opening
  {
  }

  /** The last field is closed by a brace. */
  lemma PrintedToEnd(json: string, h: Header, start: string)
    requires PrintedUpTo(json, h, start, 7)
    ensures json + PrintInt(h.validFor) + "}" == HeaderText(h)
  {
    hide PrintInt, HeaderText;
    Closing(start, "valid_for_ms", PrintInt(h.validFor));
  }

  lemma Closing(start: string, key: string, n: string)
    ensures (start + "\"" + key + "\":" + "") + n + "}" == start + ("\"" + key + "\":" + n + "}")
  {
  }

  method AppendText(json: string, ghost h: Header, ghost start: string, ghost k: nat, value: string, next: string)
    returns (longer: string, ghost more: string)
    requires k < 7 && PrintedUpTo(json, h, start, k) && Fields(h)[k].Text? && Fields(h)[k].text == value
    requires next == "\",\"" + Fields(h)[k + 1].key + if Fields(h)[k + 1].Text? then "\":\"" else "\":"
    ensures PrintedUpTo(longer, h, more, k + 1)
  {
    hide PrintedUpTo, Escape, Fields;
    longer := json;
    var v := JsonEscape(value);
    longer := longer + v;
    longer := longer + next;
    ghost var f, g := Fields(h)[k], Fields(h)[k + 1];
    more := start + Render(f, ",");
    PrintedFurther(json, h, start, k);
    AppendInTwo(json, v, "\",\"", g.key, if g.Text? then "\":\"" else "\":");
  }

  method AppendNumber(json: string, ghost h: Header, ghost start: string, ghost k: nat, value: int, next: string)
    returns (longer: string, ghost more: string)
    requires k < 7 && PrintedUpTo(json, h, start, k) && Fields(h)[k].Number? && Fields(h)[k].number == value
    requires next == ",\"" + Fields(h)[k + 1].key + if Fields(h)[k + 1].Text? then "\":\"" else "\":"
    ensures PrintedUpTo(longer, h, more, k + 1)
  {
    hide PrintedUpTo, PrintInt, Fields;
    longer := json;
    longer := longer + PrintInt(value);
    longer := longer + next;
    ghost var f, g := Fields(h)[k], Fields(h)[k + 1];
    more := start + Render(f, ",");
    PrintedFurther(json, h, start, k);
    AppendInTwo(json, PrintInt(value), ",\"", g.key, if g.Text? then "\":\"" else "\":");
  }

  lemma AppendInTwo(json: string, v: string, a: string, key: string, b: string)
    ensures json + v + (a + key + b) == json + (v + a + key + b)
  {
  }

  lemma PrintedStart(h: Header)
    ensures PrintedUpTo("{\"plan_id\":\"", h, "{", 0)
  {
    hide RenderAll;
    assert Fields(h)[0..] == Fields(h);
    assert "{\"plan_id\":\"" == "{" + "\"" + "plan_id" + "\":" + "\"";
  }

  /** The header text, appended part by part as in the code. */
  method PlanToJson(h: Header) returns (json: string)
    ensures json == HeaderText(h)
  {
    hide PrintedUpTo, HeaderText, RenderAll, Milliseconds;
    PrintedStart(h);
    ghost var start := "{";
    json := "{\"plan_id\":\"";
    json, start := AppendText(json, h, start, 0, h.planId, "\",\"" + "model_id" + "\":\"");
    json, start := AppendText(json, h, start, 1, h.model, "\",\"" + "manifest_revision" + "\":\"");
    json, start := AppendText(json, h, start, 2, h.revision, "\",\"" + "fence_term" + "\":");
    json, start := AppendNumber(json, h, start, 3, h.term, ",\"" + "fence_token" + "\":\"");
    json, start := AppendText(json, h, start, 4, h.token, "\",\"" + "fence_membership_revision" + "\":");
    json, start := AppendNumber(json, h, start, 5, h.membershipRevision, ",\"" + "issued_at_epoch_ms" + "\":");
    json, start := AppendNumber(json, h, start, 6, Milliseconds(h.issuedAt), ",\"" + "valid_for_ms" + "\":");
    PrintedToEnd(json, h, start);
    json := json + PrintInt(h.validFor);
    json := json + "}";
  }

  // ---------------------------------------------------------------------------------------------
  // The text itself
  // ---------------------------------------------------------------------------------------------

  /** Whole milliseconds are cut towards zero. */
  lemma MillisecondsAreCut(us: int)
    ensures us >= 0 ==> 1000 * Milliseconds(us) <= us < 1000 * Milliseconds(us) + 1000
    ensures us <= 0 ==> 1000 * Milliseconds(us) - 1000 < us <= 1000 * Milliseconds(us)
  {
  }

  /** Parsed numbers are kept within 64 signed bits, at the nearer end. */
  lemma ClampIsNearest(i: int)
    ensures 0 - 0x8000_0000_0000_0000 <= i < 0x8000_0000_0000_0000 ==> Clamp(i) == i
    ensures i >= 0x8000_0000_0000_0000 ==> Clamp(i) == 0x7FFF_FFFF_FFFF_FFFF
    ensures i < 0 - 0x8000_0000_0000_0000 ==> Clamp(i) == 0 - 0x8000_0000_0000_0000
  {
  }

  /** Numbers are printed in decimal. */
  lemma DecimalDigits()
    ensures PrintInt(0) == "0" && PrintInt(9) == "9" && PrintInt(10) == "10" && PrintInt(0 - 42) == "-42"
    ensures PrintInt(1705) == "1705"
  {
    assert PrintNat(1) == "1" && PrintNat(4) == "4";
    assert PrintNat(17) == PrintNat(1) + "7";
    assert PrintNat(170) == PrintNat(17) + "0";
    assert PrintNat(1705) == PrintNat(170) + "5";
    assert PrintNat(42) == PrintNat(4) + "2";
    assert PrintNat(10) == PrintNat(1) + "0";
  }

  function TextPart(key: string, value: string): string {
    "\"" + key + "\":\"" + Escape(value) + "\","
  }

  function NumberPart(key: string, value: int): string {
    "\"" + key + "\":" + PrintInt(value)
  }

  /** The header text: names, separators and values in this order. */
  lemma {:induction false} HeaderLayout(h: Header)
    ensures HeaderText(h) == "{" + (TextPart("plan_id", h.planId)
              + (TextPart("model_id", h.model)
              + (TextPart("manifest_revision", h.revision)
              + (NumberPart("fence_term", h.term) + ","
              + (TextPart("fence_token", h.token)
              + (NumberPart("fence_membership_revision", h.membershipRevision) + ","
              + (NumberPart("issued_at_epoch_ms", Milliseconds(h.issuedAt)) + ","
              + (NumberPart("valid_for_ms", h.validFor) + "}"))))))))
  {
    var fs := Fields(h);
    TextPartIs("plan_id", h.planId);
    TextPartIs("model_id", h.model);
    TextPartIs("manifest_revision", h.revision);
    NumberPartIs("fence_term", h.term, ",");
    TextPartIs("fence_token", h.token);
    NumberPartIs("fence_membership_revision", h.membershipRevision, ",");
    NumberPartIs("issued_at_epoch_ms", Milliseconds(h.issuedAt), ",");
    NumberPartIs("valid_for_ms", h.validFor, "}");
    hide Escape, PrintInt, Milliseconds, TextPart, NumberPart, Render;
    assert fs[0..] == fs && fs[7..] == [fs[7]];
    assert RenderAll(fs[7..]) == Render(fs[7], "}");
    hide RenderAll;
    RenderFrom(fs, 0);
    RenderFrom(fs, 1);
    RenderFrom(fs, 2);
    RenderFrom(fs, 3);
    RenderFrom(fs, 4);
    RenderFrom(fs, 5);
    RenderFrom(fs, 6);
  }

  lemma NumberPartIs(key: string, value: int, end: string)
    ensures Render(Number(key, value), end) == NumberPart(key, value) + end
  {
    hide PrintInt;
  }

  lemma TextPartIs(key: string, value: string)
    ensures Render(Text(key, value), ",") == TextPart(key, value)
  {
    hide Escape;
  }

  lemma RenderFrom(fs: seq<Field>, k: nat)
    requires k + 1 < |fs|
    ensures RenderAll(fs[k..]) == Render(fs[k], ",") + RenderAll(fs[k + 1..])
  {
    hide Render;
    assert fs[k..][1..] == fs[k + 1..];
  }
}
