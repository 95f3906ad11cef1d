/** From fields to workspace tags: separator search, unquoting, unescaping, and the printer
    that all of it inverts. Source: cmd/projects_helpers.go. */
module TagParser {
  import opened Wrappers
  import opened Text
  import opened TagLexer

  datatype Tag = Tag(key: string, value: string)

  // ---------------------------------------------------------------------------
  // The separator search

  /** `i` is an equals sign outside quotes and not escaped. */
  predicate PlainEquals(s: string, i: int) {
    0 <= i < |s| && s[i] == '=' && Scan(Plain, s[..i]) == Plain
  }

  function SeparatorFrom(s: string, i: nat): (r: int)
    requires i <= |s|
    ensures r == -1 || (i <= r && PlainEquals(s, r))
    ensures forall j :: i <= j < (if r == -1 then |s| else r) ==> !PlainEquals(s, j)
    decreases |s| - i
  {
    if i == |s| then -1
    else if PlainEquals(s, i) then i
    else SeparatorFrom(s, i + 1)
  }

  /** `findVolcengineTagSeparator`. */
  method FindTagSeparator(value: string) returns (r: int)
    ensures r == SeparatorFrom(value, 0)
    ensures r == -1 || PlainEquals(value, r)
    ensures forall j :: 0 <= j < (if r == -1 then |value| else r) ==> !PlainEquals(value, j)
  {
    var quote := '\0';
    var escaped := false;
    for i := 0 to |value|
      invariant quote == '\0' || quote == '"'
      invariant Scan(Plain, value[..i]) ==
        if escaped then Escaped(quote != '\0') else if quote != '\0' then Quoted else Plain
      invariant SeparatorFrom(value, 0) == SeparatorFrom(value, i)
    {
      var c := value[i];
      assert value[..i + 1][..i] == value[..i];
      if escaped {
        escaped := false;
      } else if c == '\\' {
        escaped := true;
      } else if quote != '\0' {
        if c == quote {
          quote := '\0';
        }
      } else if c == '"' {
        quote := c;
      } else if c == '=' {
        return i;
      }
    }
    return -1;
  }

  // ---------------------------------------------------------------------------
  // Unescaping and unquoting

  function Unescape(s: string): string {
    if s == [] then []
    else if s[0] != '\\' then [s[0]] + Unescape(s[1..])
    else if |s| == 1 then s
    else [s[1]] + Unescape(s[2..])
  }

  /** `r` is what the first `i` characters gave; a backslash may be pending. */
  ghost predicate UnescapedUpTo(value: string, r: string, escaped: bool, i: nat)
    requires i <= |value|
  {
    Unescape(value) == r + Unescape((if escaped then ['\\'] else []) + value[i..])
  }

  lemma UnescapeTurn(value: string, r: string, escaped: bool, i: nat)
    requires i < |value| && UnescapedUpTo(value, r, escaped, i)
    ensures if !escaped && value[i] == '\\' then UnescapedUpTo(value, r, true, i + 1)
            else UnescapedUpTo(value, r + [value[i]], false, i + 1)
  {
    var c, tail := value[i], value[i + 1..];
    assert value[i..] == [c] + tail && [] + tail == tail && [] + value[i..] == value[i..];
    if escaped {
      assert (['\\'] + value[i..])[1] == c && (['\\'] + value[i..])[2..] == tail;
      assert r + ([c] + Unescape(tail)) == r + [c] + Unescape(tail);
    } else if c != '\\' {
      assert value[i..][1..] == tail;
      assert r + ([c] + Unescape(tail)) == r + [c] + Unescape(tail);
    }
  }

  lemma UnescapeEnds(value: string, r: string, escaped: bool)
    requires UnescapedUpTo(value, r, escaped, |value|)
    ensures Unescape(value) == if escaped then r + ['\\'] else r
  {
    assert value[|value|..] == [] && ['\\'] + [] == ['\\'] && r + [] == r;
  }

  /** `unescapeVolcengineTagPart`. */
  method UnescapeTagPart(value: string) returns (r: string)
    ensures r == Unescape(value)
  {
    r := [];
    var escaped := false;
    assert UnescapedUpTo(value, r, escaped, 0) by { assert value[0..] == value && [] + value == value; }
    for i := 0 to |value|
      invariant UnescapedUpTo(value, r, escaped, i)
    {
      var c := value[i];
      UnescapeTurn(value, r, escaped, i);
      if escaped {
        r := r + [c];
        escaped := false;
      } else if c == '\\' {
        escaped := true;
      } else {
        r := r + [c];
      }
    }
    UnescapeEnds(value, r, escaped);
    if escaped {
      r := r + ['\\'];
    }
  }

  /** `unquoteVolcengineTagPart`: None when only one end is quoted. */
  function Unquote(part: string): Option<string> {
    var value := TrimSpace(part);
    if |value| < 2 then Some(Unescape(value))
    else if value[0] == '"' && value[|value| - 1] == '"' then Some(Unescape(value[1..|value| - 1]))
    else if value[0] == '"' || value[|value| - 1] == '"' then None
    else Some(Unescape(value))
  }

  /** `parseVolcengineTagPair`. */
  function ParsePair(text: string): Option<Tag> {
    var value := TrimSpace(text);
    var separator := SeparatorFrom(value, 0);
    if '\'' in value || separator < 0 then None
    else
      var key, tagValue := Unquote(value[..separator]), Unquote(value[separator + 1..]);
      if key.None? || tagValue.None? then None
      else Some(Tag(TrimSpace(key.value), TrimSpace(tagValue.value)))
  }

  /** One step of the loop in `parseVolcengineTags`. */
  function ParseField(field: string): Result<Tag, TagError> {
    match ParsePair(field)
    case Some(tag) => if tag.key == [] then Err(InvalidTag(field)) else Ok(tag)
    case None => Err(InvalidTag(field))
  }

  /** Every field parsed, or the error of the first field that does not parse. */
  function ParseFields(fields: seq<string>): Result<seq<Tag>, TagError> {
    if fields == [] then Ok([])
    else match ParseFields(fields[..|fields| - 1])
      case Err(e) => Err(e)
      case Ok(tags) =>
        match ParseField(fields[|fields| - 1])
        case Err(e) => Err(e)
        case Ok(tag) => Ok(tags + [tag])
  }

  function Parse(values: seq<string>): Result<seq<Tag>, TagError> {
    match Expand(values)
    case Err(e) => Err(e)
    case Ok(fields) => ParseFields(fields)
  }

  /** `parseVolcengineTags`. */
  method ParseTags(values: seq<string>) returns (r: Result<seq<Tag>, TagError>)
    ensures r == Parse(values)
    ensures r.Ok? ==> |r.value| == |Expand(values).value| && AllPrintable(r.value)
  {
    var pairs := ExpandTagValues(values);
    if pairs.Err? {
      return Err(pairs.error);
    }
    var fields := pairs.value;
    var tags: seq<Tag> := [];
    for i := 0 to |fields|
      invariant ParseFields(fields[..i]) == Ok(tags) && |tags| == i
    {
      assert fields[..i + 1][..i] == fields[..i];
      var pair := ParsePair(fields[i]);
      if pair.None? || pair.value.key == [] {
        ParseStopsAtError(fields, i + 1);
        return Err(InvalidTag(fields[i]));
      }
      tags := tags + [pair.value];
    }
    assert fields[..|fields|] == fields;
    ParsedFieldsArePrintable(fields);
    return Ok(tags);
  }

  lemma {:induction false} ParseStopsAtError(fields: seq<string>, n: nat)
    requires n <= |fields| && ParseFields(fields[..n]).Err?
    ensures ParseFields(fields) == ParseFields(fields[..n])
  {
    if n == |fields| {
      assert fields[..n] == fields;
    } else {
      assert fields[..|fields| - 1][..n] == fields[..n];
      ParseStopsAtError(fields[..|fields| - 1], n);
    }
  }

  // ---------------------------------------------------------------------------
  // The prompt path splits first, the flag path does not

  /** `promptVolcengineTags` followed by `parseVolcengineTags`; None is the error for no tags. */
  function PromptThenParse(input: string): Option<Result<seq<Tag>, TagError>> {
    match Split(input)
    case Err(e) => Some(Err(e))
    case Ok(fields) => if fields == [] then None else Some(Parse(fields))
  }

  lemma {:induction false} ExpandFixedPoints(fields: seq<string>)
    requires forall i :: 0 <= i < |fields| ==> Atomic(fields[i])
    ensures Expand(fields) == Ok(fields)
  {
    if fields != [] {
      var init, last := fields[..|fields| - 1], fields[|fields| - 1];
      ExpandFixedPoints(init);
      AtomicIsFixed(last);
      assert init + [last] == fields;
    }
  }

  /** Splitting the prompt's text twice changes nothing: the prompt and the flag yield the same
      tags or the same error, except that the prompt rejects a text without fields. */
  lemma PromptAgreesWithFlag(input: string)
    ensures PromptThenParse(input).None? <==> Split(input) == Ok([])
    ensures PromptThenParse(input).Some? ==> PromptThenParse(input).value == Parse([input])
  {
    ExpandSingle(input);
    if Split(input).Ok? {
      SplitIdempotent(input);
      ExpandFixedPoints(Split(input).value);
    }
  }

  // ---------------------------------------------------------------------------
  // The printer and the round trip

  function Escape(s: string): string {
    if s == [] then []
    else if s[0] == '\\' || s[0] == '"' then ['\\', s[0]] + Escape(s[1..])
    else [s[0]] + Escape(s[1..])
  }

  function QuotePart(s: string): string {
    ['"'] + Escape(s) + ['"']
  }

  function Print(tag: Tag): string {
    QuotePart(tag.key) + ['='] + QuotePart(tag.value)
  }

  /** A tag that survives printing and parsing. */
  predicate Printable(tag: Tag) {
    && tag.key != [] && Trimmed(tag.key) && Trimmed(tag.value)
    && '\'' !in tag.key && '\'' !in tag.value
  }

  lemma {:induction false} UnescapeEscape(s: string)
    ensures Unescape(Escape(s)) == s
  {
    if s != [] {
      UnescapeEscape(s[1..]);
      if s[0] == '\\' || s[0] == '"' {
        assert Escape(s)[2..] == Escape(s[1..]);
      } else {
        assert Escape(s)[1..] == Escape(s[1..]);
      }
    }
  }

  lemma {:induction false} EscapeKeepsApostrophes(s: string)
    ensures '\'' in Escape(s) <==> '\'' in s
  {
    if s != [] {
      EscapeKeepsApostrophes(s[1..]);
      assert s == [s[0]] + s[1..];
    }
  }

  lemma {:induction false} UnescapeAddsNoApostrophe(s: string)
    ensures '\'' in Unescape(s) ==> '\'' in s
  {
    if s == [] {
    } else if s[0] != '\\' {
      UnescapeAddsNoApostrophe(s[1..]);
    } else if |s| > 1 {
      UnescapeAddsNoApostrophe(s[2..]);
    }
  }

  /** Escaped text stays inside its quotes: it is never left in plain mode. */
  lemma {:induction false} ScanEscaped(s: string)
    ensures Scan(Quoted, Escape(s)) == Quoted
    ensures forall i :: 0 <= i <= |Escape(s)| ==> Scan(Quoted, Escape(s)[..i]) != Plain
  {
    var e := Escape(s);
    if s != [] {
      var head := if s[0] == '\\' || s[0] == '"' then ['\\', s[0]] else [s[0]];
      var tail := Escape(s[1..]);
      assert e == head + tail;
      ScanEscaped(s[1..]);
      ScanHead(head);
      ScanConcat(Quoted, head, tail);
      forall i | 0 <= i <= |e| ensures Scan(Quoted, e[..i]) != Plain {
        if i <= |head| {
          assert e[..i] == head[..i];
        } else {
          assert e[..i] == head + tail[..i - |head|];
          ScanConcat(Quoted, head, tail[..i - |head|]);
        }
      }
    }
  }

  lemma ScanHead(head: string)
    requires (|head| == 1 && head[0] != '\\' && head[0] != '"') || (|head| == 2 && head[0] == '\\')
    ensures Scan(Quoted, head) == Quoted
    ensures forall i :: 0 <= i <= |head| ==> Scan(Quoted, head[..i]) != Plain
  {
    assert head[..0] == [] && head[..|head|] == head;
    ScanOne(Quoted, head[0]);
    assert head[..1] == [head[0]];
  }

  /** A quoted part is closed, and outside quotes only before its first character. */
  lemma ScanQuotePart(s: string)
    ensures Closed(QuotePart(s))
    ensures forall i :: 0 < i < |QuotePart(s)| ==> Scan(Plain, QuotePart(s)[..i]) != Plain
  {
    var e, q := Escape(s), QuotePart(s);
    ScanEscaped(s);
    ScanOne(Plain, '"');
    ScanOne(Quoted, '"');
    ScanConcat(Plain, ['"'], e);
    ScanConcat(Plain, ['"'] + e, ['"']);
    forall i | 0 < i < |q| ensures Scan(Plain, q[..i]) != Plain {
      assert q[..i] == ['"'] + e[..i - 1];
      ScanConcat(Plain, ['"'], e[..i - 1]);
    }
  }

  /** No separator or equals sign of the text is plain. */
  predicate Covered(s: string) {
    forall i :: 0 <= i < |s| && (IsSeparator(s[i]) || s[i] == '=') ==> Scan(Plain, s[..i]) != Plain
  }

  lemma CoveredConcat(a: string, b: string)
    requires Closed(a) && Covered(a) && Covered(b)
    ensures Covered(a + b)
  {
    var s := a + b;
    forall i | 0 <= i < |s| && (IsSeparator(s[i]) || s[i] == '=') ensures Scan(Plain, s[..i]) != Plain {
      if i < |a| {
        assert s[..i] == a[..i] && s[i] == a[i];
      } else {
        assert s[..i] == a + b[..i - |a|] && s[i] == b[i - |a|];
        ScanConcat(Plain, a, b[..i - |a|]);
      }
    }
  }

  /** Two covered parts and the equals sign between them. */
  lemma PairScans(k: string, v: string)
    requires Closed(k) && Covered(k) && Solid(Plain, k) && Closed(v) && Covered(v)
    ensures Closed(k + ['='] + v) && Solid(Plain, k + ['='] + v)
    ensures SeparatorFrom(k + ['='] + v, 0) == |k|
  {
    ClosedConcat(k, ['=']);
    ClosedConcat(k + ['='], v);
    FirstEquals(k, v);
  }

  lemma ClosedConcat(a: string, b: string)
    requires Closed(a) && Solid(Plain, a)
    requires b == ['='] || (Closed(b) && Covered(b))
    ensures Closed(a + b) && Solid(Plain, a + b)
  {
    ScanOne(Plain, '=');
    SolidOne(Plain, '=');
    ScanConcat(Plain, a, b);
    SolidConcat(Plain, a, b);
    if b != ['='] { CoveredIsSolid(b); }
  }

  lemma CoveredIsSolid(s: string)
    requires Covered(s)
    ensures Solid(Plain, s)
  {
  }

  lemma FirstEquals(k: string, v: string)
    requires Closed(k) && Covered(k)
    ensures SeparatorFrom(k + ['='] + v, 0) == |k|
  {
    var p := k + ['='] + v;
    assert p[..|k|] == k;
    assert PlainEquals(p, |k|);
    forall j | 0 <= j < |k| ensures !PlainEquals(p, j) {
      assert p[..j] == k[..j] && p[j] == k[j];
    }
  }

  /** The printed tag is one field, and its separator is the one the printer wrote. */
  lemma PrintScans(tag: Tag)
    ensures Atomic(Print(tag)) && Closed(Print(tag))
    ensures SeparatorFrom(Print(tag), 0) == |QuotePart(tag.key)|
  {
    QuotedIsCovered(tag.key);
    QuotedIsCovered(tag.value);
    PairScans(QuotePart(tag.key), QuotePart(tag.value));
    assert Trimmed(Print(tag));
  }

  lemma QuotedIsCovered(s: string)
    ensures Closed(QuotePart(s)) && Covered(QuotePart(s)) && Solid(Plain, QuotePart(s))
  {
    ScanQuotePart(s);
    CoveredIsSolid(QuotePart(s));
  }

  lemma UnquotePrinted(s: string)
    ensures Unquote(QuotePart(s)) == Some(s)
  {
    var q := QuotePart(s);
    TrimOfTrimmed(q);
    assert q[1..|q| - 1] == Escape(s);
    UnescapeEscape(s);
  }

  /** What parsing a printed tag yields, for every key and value. */
  lemma ParsePrinted(tag: Tag)
    ensures Split(Print(tag)) == Ok([Print(tag)])
    ensures ParsePair(Print(tag)) ==
      if '\'' in tag.key || '\'' in tag.value then None
      else Some(Tag(TrimSpace(tag.key), TrimSpace(tag.value)))
  {
    var k, v, p := QuotePart(tag.key), QuotePart(tag.value), Print(tag);
    PrintScans(tag);
    AtomicIsFixed(p);
    TrimOfTrimmed(p);
    EscapeKeepsApostrophes(tag.key);
    EscapeKeepsApostrophes(tag.value);
    assert '\'' in p <==> '\'' in tag.key || '\'' in tag.value;
    assert p[..|k|] == k && p[|k| + 1..] == v;
    UnquotePrinted(tag.key);
    UnquotePrinted(tag.value);
  }

  function PrintAll(tags: seq<Tag>): (r: seq<string>)
    ensures |r| == |tags| && forall i :: 0 <= i < |tags| ==> r[i] == Print(tags[i])
  {
    seq(|tags|, i requires 0 <= i < |tags| => Print(tags[i]))
  }

  lemma ParseFieldPrinted(tag: Tag)
    ensures ParseField(Print(tag)) == Ok(tag) <==> Printable(tag)
  {
    ParsePrinted(tag);
    TrimIdempotent(tag.key);
    TrimIdempotent(tag.value);
    if Printable(tag) {
      TrimOfTrimmed(tag.key);
      TrimOfTrimmed(tag.value);
    }
  }

  predicate AllPrintable(tags: seq<Tag>) {
    forall i :: 0 <= i < |tags| ==> Printable(tags[i])
  }

  lemma SnocInjective<T>(a: seq<T>, x: T, b: seq<T>, y: T)
    ensures a + [x] == b + [y] <==> a == b && x == y
  {
    if a + [x] == b + [y] {
      assert (a + [x])[..|a|] == a && (b + [y])[..|b|] == b;
      assert (a + [x])[|a|] == x && (b + [y])[|b|] == y;
    }
  }

  lemma AllPrintableSnoc(init: seq<Tag>, last: Tag)
    ensures AllPrintable(init + [last]) <==> AllPrintable(init) && Printable(last)
  {
    var tags := init + [last];
    if AllPrintable(tags) {
      forall i | 0 <= i < |init| ensures Printable(init[i]) { assert init[i] == tags[i]; }
      assert Printable(tags[|init|]);
    }
  }

  lemma {:induction false} ParseFieldsPrinted(tags: seq<Tag>)
    ensures ParseFields(PrintAll(tags)) == Ok(tags) <==> AllPrintable(tags)
  {
    if tags != [] {
      var init, last := tags[..|tags| - 1], tags[|tags| - 1];
      var printed := PrintAll(tags);
      assert tags == init + [last];
      assert printed[..|printed| - 1] == PrintAll(init) && printed[|printed| - 1] == Print(last);
      ParseFieldsPrinted(init);
      ParseFieldPrinted(last);
      AllPrintableSnoc(init, last);
      if ParseFields(PrintAll(init)).Ok? && ParseField(Print(last)).Ok? {
        SnocInjective(ParseFields(PrintAll(init)).value, ParseField(Print(last)).value, init, last);
      }
    }
  }

  /** The round trip: printed tags, joined by any whitespace, parse back to exactly those tags
      in order if and only if every tag has a non-empty key, trimmed parts and no apostrophe. */
  lemma PrintedTagsRoundTrip(tags: seq<Tag>, gaps: seq<string>)
    requires |gaps| + 1 >= |tags| && forall g :: g in gaps ==> Separators(g)
    ensures Parse([Join(PrintAll(tags), gaps)]) == Ok(tags) <==> AllPrintable(tags)
  {
    var printed := PrintAll(tags);
    forall i | 0 <= i < |tags| ensures Closed(printed[i]) && Atomic(printed[i]) {
      PrintScans(tags[i]);
    }
    JoinedValuesSplitAlike(printed, gaps);
    ExpandFixedPoints(printed);
    ExpandSingle(Join(printed, gaps));
    ParseFieldsPrinted(tags);
  }

  lemma ParsedIsPrintable(field: string)
    requires ParseField(field).Ok?
    ensures Printable(ParseField(field).value)
  {
    var value := TrimSpace(field);
    var separator := SeparatorFrom(value, 0);
    UnquotedHasNoApostrophe(value[..separator]);
    UnquotedHasNoApostrophe(value[separator + 1..]);
    var key, tagValue := Unquote(value[..separator]).value, Unquote(value[separator + 1..]).value;
    TrimIdempotent(key);
    TrimIdempotent(tagValue);
    var l1, r1 := TrimPads(key);
    var l2, r2 := TrimPads(tagValue);
  }

  lemma UnquotedHasNoApostrophe(part: string)
    requires '\'' !in part && Unquote(part).Some?
    ensures '\'' !in Unquote(part).value
  {
    var value := TrimSpace(part);
    var left, right := TrimPads(part);
    assert '\'' !in value;
    UnescapeAddsNoApostrophe(value);
    if |value| >= 2 {
      UnescapeAddsNoApostrophe(value[1..|value| - 1]);
    }
  }

  /** Whatever spelling the tags came in, printing them is a normal form: it parses back to
      the same tags. */
  lemma PrintIsNormalForm(values: seq<string>, gaps: seq<string>)
    requires Parse(values).Ok? && |gaps| + 1 >= |Parse(values).value|
    requires forall g :: g in gaps ==> Separators(g)
    ensures Parse([Join(PrintAll(Parse(values).value), gaps)]) == Parse(values)
  {
    ParsedFieldsArePrintable(Expand(values).value);
    PrintedTagsRoundTrip(Parse(values).value, gaps);
  }

  lemma {:induction false} ParsedFieldsArePrintable(fields: seq<string>)
    requires ParseFields(fields).Ok?
    ensures |ParseFields(fields).value| == |fields|
    ensures AllPrintable(ParseFields(fields).value)
  {
    if fields != [] {
      ParsedFieldsArePrintable(fields[..|fields| - 1]);
      ParsedIsPrintable(fields[|fields| - 1]);
    }
  }

  // ---------------------------------------------------------------------------
  // The spelling without quotes

  /** A character that means itself only behind a backslash. */
  predicate Special(c: char) {
    c == '\\' || c == '"' || c == '=' || IsSeparator(c)
  }

  function EscapeBare(s: string): string {
    if s == [] then []
    else (if Special(s[0]) then ['\\', s[0]] else [s[0]]) + EscapeBare(s[1..])
  }

  function PrintBare(tag: Tag): string {
    EscapeBare(tag.key) + ['='] + EscapeBare(tag.value)
  }

  predicate EndsInQuote(s: string) {
    s != [] && s[|s| - 1] == '"'
  }

  lemma {:induction false} UnescapeBare(s: string)
    ensures Unescape(EscapeBare(s)) == s
  {
    if s != [] {
      UnescapeBare(s[1..]);
      var e := EscapeBare(s);
      assert if Special(s[0]) then e[2..] == EscapeBare(s[1..]) else e[1..] == EscapeBare(s[1..]);
    }
  }

  lemma {:induction false} BareKeepsApostrophes(s: string)
    ensures '\'' in EscapeBare(s) <==> '\'' in s
  {
    if s != [] {
      BareKeepsApostrophes(s[1..]);
      assert s == [s[0]] + s[1..];
    }
  }

  lemma {:induction false} BareEnds(s: string)
    requires s != []
    ensures EscapeBare(s) != [] && EscapeBare(s)[|EscapeBare(s)| - 1] == s[|s| - 1]
    ensures EscapeBare(s)[0] == (if Special(s[0]) then '\\' else s[0])
    ensures EndsInQuote(s) ==> |EscapeBare(s)| >= 2
  {
    if |s| > 1 {
      BareEnds(s[1..]);
      assert s[1..][|s[1..]| - 1] == s[|s| - 1];
    } else {
      assert s[1..] == [];
    }
  }

  /** Bare text stays closed, and what would separate in it is covered. */
  lemma {:induction false} ScanBare(s: string)
    ensures Closed(EscapeBare(s)) && Covered(EscapeBare(s))
  {
    if s != [] {
      var head, tail := if Special(s[0]) then ['\\', s[0]] else [s[0]], EscapeBare(s[1..]);
      ScanBare(s[1..]);
      ScanBareHead(head);
      ScanConcat(Plain, head, tail);
      CoveredConcat(head, tail);
    }
  }

  lemma ScanBareHead(head: string)
    requires (|head| == 1 && !Special(head[0])) || (|head| == 2 && head[0] == '\\')
    ensures Closed(head) && Covered(head)
  {
    ScanOne(Plain, head[0]);
    assert head[..1] == [head[0]];
    if |head| == 2 {
      ScanConcat(Plain, [head[0]], [head[1]]);
      ScanOne(Escaped(false), head[1]);
      assert head == [head[0]] + [head[1]];
    } else {
      assert head == [head[0]];
    }
  }

  /** A bare tag is one field, and its first plain equals sign is the one between the parts. */
  lemma PrintBareScans(tag: Tag)
    requires tag.key != [] && Trimmed(tag.key) && Trimmed(tag.value)
    ensures Atomic(PrintBare(tag)) && Closed(PrintBare(tag))
    ensures SeparatorFrom(PrintBare(tag), 0) == |EscapeBare(tag.key)|
  {
    ScanBare(tag.key);
    ScanBare(tag.value);
    CoveredIsSolid(EscapeBare(tag.key));
    PairScans(EscapeBare(tag.key), EscapeBare(tag.value));
    BareEnds(tag.key);
    if tag.value != [] { BareEnds(tag.value); }
    assert Trimmed(PrintBare(tag));
  }

  lemma UnquoteBare(s: string)
    requires Trimmed(s)
    ensures Unquote(EscapeBare(s)) == if EndsInQuote(s) then None else Some(s)
  {
    UnescapeBare(s);
    BareIsTrimmed(s);
    TrimOfTrimmed(EscapeBare(s));
    if s != [] { BareEnds(s); }
  }

  lemma BareIsTrimmed(s: string)
    requires Trimmed(s)
    ensures Trimmed(EscapeBare(s))
  {
    if s != [] { BareEnds(s); }
  }

  /** Parsing a pair that is split at `i`. */
  lemma ParseSplitPair(text: string, i: nat)
    requires Trimmed(text) && '\'' !in text && i < |text| && SeparatorFrom(text, 0) == i
    ensures var key, value := Unquote(text[..i]), Unquote(text[i + 1..]);
      ParsePair(text) ==
        if key.None? || value.None? then None else Some(Tag(TrimSpace(key.value), TrimSpace(value.value)))
  {
    TrimOfTrimmed(text);
  }

  lemma ParseBare(tag: Tag)
    requires Printable(tag)
    ensures ParseField(PrintBare(tag)) ==
      if EndsInQuote(tag.key) || EndsInQuote(tag.value) then Err(InvalidTag(PrintBare(tag))) else Ok(tag)
  {
    var k, v, p := EscapeBare(tag.key), EscapeBare(tag.value), PrintBare(tag);
    PrintBareScans(tag);
    BareKeepsApostrophes(tag.key);
    BareKeepsApostrophes(tag.value);
    ParseSplitPair(p, |k|);
    assert p[..|k|] == k && p[|k| + 1..] == v;
    UnquoteBare(tag.key);
    UnquoteBare(tag.value);
    TrimOfTrimmed(tag.key);
    TrimOfTrimmed(tag.value);
  }

  lemma ParseOneField(field: string)
    requires Atomic(field)
    ensures Parse([field]) == match ParseField(field) case Ok(tag) => Ok([tag]) case Err(e) => Err(e)
  {
    AtomicIsFixed(field);
    ExpandSingle(field);
    assert [field][..0] == [];
    assert ParseFields([field][..0]) == Ok([]);
    if ParseField(field).Ok? { assert [] + [ParseField(field).value] == [ParseField(field).value]; }
  }

  /** Without quotes, special characters behind backslashes, a tag parses to itself if and only if
      it survives printing at all and neither part ends in a double quote, which would count as
      half a pair. */
  lemma BareRoundTripExact(tag: Tag)
    ensures Parse([PrintBare(tag)]) == Ok([tag]) <==>
      Printable(tag) && !EndsInQuote(tag.key) && !EndsInQuote(tag.value)
  {
    if Printable(tag) {
      PrintBareScans(tag);
      ParseBare(tag);
      ParseOneField(PrintBare(tag));
    } else if Parse([PrintBare(tag)]).Ok? && Parse([PrintBare(tag)]).value != [] {
      ParsedFieldsArePrintable(Expand([PrintBare(tag)]).value);
      assert Printable(Parse([PrintBare(tag)]).value[0]);
    }
  }

  lemma {:induction false} EscapeBareOfPlain(s: string)
    requires forall i :: 0 <= i < |s| ==> !Special(s[i])
    ensures EscapeBare(s) == s
  {
    if s != [] {
      EscapeBareOfPlain(s[1..]);
      assert s == [s[0]] + s[1..];
    }
  }

  /** The everyday spelling: `key=value` is that tag, for all trimmed texts without quotes,
      apostrophes, backslashes, equals signs and separators, the value possibly empty. */
  lemma PlainTag(k: string, v: string)
    requires k != [] && Trimmed(k) && Trimmed(v)
    requires forall c :: c in k || c in v ==>
      c != '"' && c != '\'' && c != '\\' && c != '=' && c != ' ' && c != '\t' && c != '\n' && c != '\r'
    ensures Parse([k + "=" + v]) == Ok([Tag(k, v)])
  {
    forall i | 0 <= i < |k| ensures !Special(k[i]) { assert k[i] in k; }
    forall i | 0 <= i < |v| ensures !Special(v[i]) { assert v[i] in v; }
    EscapeBareOfPlain(k);
    EscapeBareOfPlain(v);
    BareRoundTripExact(Tag(k, v));
  }

  // ---------------------------------------------------------------------------
  // Exactly which fields are refused

  /** One end of the trimmed part is a double quote, the other is not. */
  predicate HalfQuoted(part: string) {
    var v := TrimSpace(part);
    |v| >= 2 && (v[0] == '"') != (v[|v| - 1] == '"')
  }

  /** Nothing but spaces is left of the part without its quotes and backslashes. */
  predicate NamesNothing(part: string) {
    var v := TrimSpace(part);
    AllSpace(Unescape(if |v| >= 2 && v[0] == '"' && v[|v| - 1] == '"' then v[1..|v| - 1] else v))
  }

  /** A field is refused, and named in the error, if and only if it holds an apostrophe, has no
      plain equals sign, a half-quoted part beside the first one, or a key that names nothing. */
  lemma RefusedExactly(field: string)
    requires Atomic(field)
    ensures Parse([field]).Ok? <==>
      && '\'' !in field
      && exists i :: PlainEquals(field, i) && (forall j :: 0 <= j < i ==> !PlainEquals(field, j))
           && !HalfQuoted(field[..i]) && !HalfQuoted(field[i + 1..]) && !NamesNothing(field[..i])
    ensures Parse([field]).Err? ==> Parse([field]).error == InvalidTag(field)
  {
    ParseOneField(field);
    var i := SeparatorFrom(field, 0);
    if i >= 0 {
      RefusedAt(field, i);
      OnlyFirst(field, i);
    } else {
      TrimOfTrimmed(field);
    }
  }

  lemma OnlyFirst(s: string, i: int)
    requires i >= 0 && i == SeparatorFrom(s, 0)
    ensures forall k :: PlainEquals(s, k) && (forall j :: 0 <= j < k ==> !PlainEquals(s, j)) ==> k == i
  {
  }

  lemma RefusedAt(field: string, i: int)
    requires Atomic(field) && i == SeparatorFrom(field, 0) && i >= 0
    ensures ParseField(field).Ok? <==>
      '\'' !in field && !HalfQuoted(field[..i]) && !HalfQuoted(field[i + 1..]) && !NamesNothing(field[..i])
  {
    if '\'' in field {
      TrimOfTrimmed(field);
    } else {
      ParseSplitPair(field, i);
      UnquoteFails(field[..i]);
      UnquoteFails(field[i + 1..]);
    }
  }

  lemma UnquoteFails(part: string)
    ensures Unquote(part).None? <==> HalfQuoted(part)
    ensures Unquote(part).Some? ==> (TrimSpace(Unquote(part).value) == [] <==> NamesNothing(part))
  {
    if Unquote(part).Some? { TrimEmpty(Unquote(part).value); }
  }
}
