/** The quote-and-escape lexer behind `--tag`: splitting text into key=value fields.
    Source: cmd/projects_helpers.go. */
module TagLexer {
  import opened Wrappers
  import opened Text

  // ---------------------------------------------------------------------------
  // The lexical discipline, shared by the splitter and the separator search

  /** Where a scanner stands: outside quotes, inside a double quote, or just after a
      backslash seen outside or inside one. */
  datatype Mode = Plain | Quoted | Escaped(inQuote: bool)

  function Unescaped(m: Mode): Mode {
    if m.Quoted? || m == Escaped(true) then Quoted else Plain
  }

  function Advance(m: Mode, c: char): Mode {
    if m.Escaped? then Unescaped(m)
    else if c == '\\' then Escaped(m.Quoted?)
    else if c == '"' then (if m.Plain? then Quoted else Plain)
    else m
  }

  /** The mode after reading all of `s`, starting in mode `m`. */
  function Scan(m: Mode, s: string): Mode {
    if s == [] then m else Advance(Scan(m, s[..|s| - 1]), s[|s| - 1])
  }

  predicate IsSeparator(c: char) {
    c == ' ' || c == '\t' || c == '\n' || c == '\r'
  }

  /** No field separator of `s` is outside quotes and unescaped. */
  predicate Solid(m: Mode, s: string) {
    forall i :: 0 <= i < |s| && IsSeparator(s[i]) ==> Scan(m, s[..i]) != Plain
  }

  lemma {:induction false} ScanConcat(m: Mode, a: string, b: string)
    ensures Scan(m, a + b) == Scan(Scan(m, a), b)
  {
    if b == [] {
      assert a + b == a;
    } else {
      assert (a + b)[..|a + b| - 1] == a + b[..|b| - 1];
      ScanConcat(m, a, b[..|b| - 1]);
    }
  }

  lemma ScanOne(m: Mode, c: char)
    ensures Scan(m, [c]) == Advance(m, c)
  {
    assert [c][..0] == [];
  }

  lemma {:induction false} SolidConcat(m: Mode, a: string, b: string)
    ensures Solid(m, a + b) <==> Solid(m, a) && Solid(Scan(m, a), b)
  {
    forall i | 0 <= i < |a| ensures (a + b)[..i] == a[..i] {}
    forall i | 0 <= i < |b|
      ensures Scan(m, (a + b)[..|a| + i]) == Scan(Scan(m, a), b[..i])
    {
      assert (a + b)[..|a| + i] == a + b[..i];
      ScanConcat(m, a, b[..i]);
    }
    if Solid(m, a + b) {
      forall i | 0 <= i < |a| && IsSeparator(a[i]) ensures Scan(m, a[..i]) != Plain {
        assert (a + b)[i] == a[i];
      }
      forall i | 0 <= i < |b| && IsSeparator(b[i]) ensures Scan(Scan(m, a), b[..i]) != Plain {
        assert (a + b)[|a| + i] == b[i];
      }
    }
    if Solid(m, a) && Solid(Scan(m, a), b) {
      forall i | 0 <= i < |a + b| && IsSeparator((a + b)[i]) ensures Scan(m, (a + b)[..i]) != Plain {
        if i < |a| {
          assert IsSeparator(a[i]);
        } else {
          assert IsSeparator(b[i - |a|]);
        }
      }
    }
  }

  lemma SolidOne(m: Mode, c: char)
    ensures Solid(m, [c]) <==> !IsSeparator(c) || m != Plain
  {
    assert [c][..0] == [];
    if Solid(m, [c]) { assert [c][0] == c; }
  }

  /** Spaces neither quote nor escape. */
  lemma {:induction false} ScanSpaces(m: Mode, s: string)
    requires AllSpace(s)
    ensures Scan(m, s) == if s == [] then m else Unescaped(m)
  {
    if s != [] {
      ScanSpaces(m, s[..|s| - 1]);
    }
  }

  // ---------------------------------------------------------------------------
  // The splitter

  datatype TagError = UnterminatedQuote | InvalidTag(text: string)

  datatype Lexer = Lexer(fields: seq<string>, builder: string, mode: Mode)

  const START := Lexer([], [], Plain)

  function Emit(fields: seq<string>, builder: string): seq<string> {
    if TrimSpace(builder) == [] then fields else fields + [TrimSpace(builder)]
  }

  function Step(l: Lexer, c: char): Lexer {
    if l.mode.Escaped? then Lexer(l.fields, l.builder + ['\\', c], Unescaped(l.mode))
    else if c == '\\' then l.(mode := Advance(l.mode, c))
    else if l.mode.Plain? && IsSeparator(c) then
      // the builder survives a separator when it holds nothing but spaces
      if TrimSpace(l.builder) == [] then l else Lexer(Emit(l.fields, l.builder), [], Plain)
    else Lexer(l.fields, l.builder + [c], Advance(l.mode, c))
  }

  function Run(l: Lexer, s: string): Lexer {
    if s == [] then l else Step(Run(l, s[..|s| - 1]), s[|s| - 1])
  }

  function Pending(l: Lexer): string {
    if l.mode.Escaped? then l.builder + ['\\'] else l.builder
  }

  function Finish(l: Lexer): Result<seq<string>, TagError> {
    if Unescaped(l.mode).Quoted? then Err(UnterminatedQuote)
    else Ok(Emit(l.fields, Pending(l)))
  }

  function Split(s: string): Result<seq<string>, TagError> {
    Finish(Run(START, s))
  }

  /** `splitVolcengineTagFields`: the loop over runes with its three variables. */
  method SplitTagFields(input: string) returns (r: Result<seq<string>, TagError>)
    ensures r == Split(input)
    ensures r.Ok? <==> Unescaped(Scan(Plain, input)).Plain?
    ensures r.Ok? ==> forall f :: f in r.value ==> Split(f) == Ok([f])
  {
    var fields: seq<string> := [];
    var builder: string := [];
    var quote := '\0';
    var escaped := false;
    for i := 0 to |input|
      invariant quote == '\0' || quote == '"'
      invariant Run(START, input[..i]) == Lexer(fields, builder,
        if escaped then Escaped(quote != '\0') else if quote != '\0' then Quoted else Plain)
    {
      var c := input[i];
      assert input[..i + 1][..i] == input[..i];
      if escaped {
        builder := builder + ['\\'];
        builder := builder + [c];
        assert builder == Run(START, input[..i]).builder + ['\\', c];
        escaped := false;
      } else if c == '\\' {
        escaped := true;
      } else if quote != '\0' {
        builder := builder + [c];
        if c == quote {
          quote := '\0';
        }
      } else if c == '"' {
        quote := c;
        builder := builder + [c];
      } else if IsSeparator(c) {
        var field := TrimSpace(builder);
        if field != [] {
          fields := fields + [field];
          builder := [];
        }
      } else {
        builder := builder + [c];
      }
    }
    assert input[..|input|] == input;
    RunMode(START, input);
    if escaped {
      builder := builder + ['\\'];
    }
    if quote != '\0' {
      return Err(UnterminatedQuote);
    }
    var field := TrimSpace(builder);
    if field != [] {
      fields := fields + [field];
    }
    SplitIdempotent(input);
    return Ok(fields);
  }

  lemma {:induction false} RunConcat(l: Lexer, a: string, b: string)
    ensures Run(l, a + b) == Run(Run(l, a), b)
  {
    if b == [] {
      assert a + b == a;
    } else {
      assert (a + b)[..|a + b| - 1] == a + b[..|b| - 1];
      RunConcat(l, a, b[..|b| - 1]);
    }
  }

  /** The splitter and the separator search agree on what is quoted and escaped. */
  lemma {:induction false} RunMode(l: Lexer, s: string)
    ensures Run(l, s).mode == Scan(l.mode, s)
  {
    if s != [] {
      RunMode(l, s[..|s| - 1]);
    }
  }

  // ---------------------------------------------------------------------------
  // Every field is a fixed point of the splitter

  /** What every emitted field looks like; `Escaped(false)` is the dangling backslash left
      when the trimmed tail began with an escaped space. */
  predicate Atomic(f: string) {
    && f != [] && Trimmed(f) && Solid(Plain, f) && Scan(Plain, f) in {Plain, Escaped(false)}
  }

  lemma StepSolid(l: Lexer, c: char)
    requires !(l.mode.Plain? && IsSeparator(c))
    ensures Step(l, c).fields == l.fields && Step(l, c).mode == Advance(l.mode, c)
    ensures Pending(Step(l, c)) == Pending(l) + [c]
  {
    assert l.builder + ['\\'] + [c] == l.builder + ['\\', c];
  }

  /** Text without plain separators is copied into the builder verbatim. */
  lemma {:induction false} RunSolid(l: Lexer, s: string)
    requires !l.mode.Escaped? && Solid(l.mode, s)
    ensures Run(l, s).fields == l.fields
    ensures Run(l, s).mode == Scan(l.mode, s)
    ensures Pending(Run(l, s)) == l.builder + s
  {
    if s != [] {
      var init, c := s[..|s| - 1], s[|s| - 1];
      assert s == init + [c];
      SolidConcat(l.mode, init, [c]);
      SolidOne(Scan(l.mode, init), c);
      RunSolid(l, init);
      StepSolid(Run(l, init), c);
      assert l.builder + s == l.builder + init + [c];
    }
  }

  lemma EmitTrimmed(f: string)
    requires f != [] && Trimmed(f)
    ensures Emit([], f) == [f]
  {
    TrimOfTrimmed(f);
  }

  lemma AtomicRun(f: string)
    requires Atomic(f)
    ensures Run(START, f).fields == [] && Pending(Run(START, f)) == f
    ensures !Unescaped(Run(START, f).mode).Quoted?
  {
    RunSolid(START, f);
    assert [] + f == f;
  }

  lemma AtomicIsFixed(f: string)
    requires Atomic(f)
    ensures Split(f) == Ok([f])
  {
    AtomicRun(f);
    EmitTrimmed(f);
  }

  /** The builder never holds a plain separator, and its own scan tells the current mode. */
  predicate BuilderInv(l: Lexer) {
    && Solid(Plain, l.builder)
    && Scan(Plain, l.builder) == Unescaped(l.mode)
    && AllAtomic(l.fields)
  }

  predicate AllAtomic(fields: seq<string>) {
    forall f :: f in fields ==> Atomic(f)
  }

  lemma BuilderGrows(b: string, c: char)
    requires Solid(Plain, b)
    requires IsSeparator(c) ==> Scan(Plain, b) != Plain
    ensures Solid(Plain, b + [c]) && Scan(Plain, b + [c]) == Advance(Scan(Plain, b), c)
  {
    SolidConcat(Plain, b, [c]);
    SolidOne(Scan(Plain, b), c);
    ScanConcat(Plain, b, [c]);
    ScanOne(Scan(Plain, b), c);
  }

  lemma BuilderTakesEscape(b: string, c: char)
    requires Solid(Plain, b) && !Scan(Plain, b).Escaped?
    ensures Solid(Plain, b + ['\\', c]) && Scan(Plain, b + ['\\', c]) == Scan(Plain, b)
  {
    BuilderGrows(b, '\\');
    BuilderGrows(b + ['\\'], c);
    assert b + ['\\'] + [c] == b + ['\\', c];
  }

  lemma EmittedIsAtomic(b: string)
    requires Solid(Plain, b) && Scan(Plain, b) in {Plain, Escaped(false)}
    requires TrimSpace(b) != []
    ensures Atomic(TrimSpace(b))
  {
    var f := TrimSpace(b);
    var left, right := TrimPads(b);
    SolidConcat(Plain, left + f, right);
    SolidConcat(Plain, left, f);
    ScanConcat(Plain, left + f, right);
    ScanConcat(Plain, left, f);
    ScanSpaces(Plain, left);
    ScanSpaces(Scan(Plain, f), right);
  }

  lemma StepKeepsInv(l: Lexer, c: char)
    requires BuilderInv(l)
    ensures BuilderInv(Step(l, c))
  {
    var b := l.builder;
    if l.mode.Escaped? {
      BuilderTakesEscape(b, c);
      assert Step(l, c).builder == b + ['\\', c];
    } else if c == '\\' {
    } else if l.mode.Plain? && IsSeparator(c) {
      EmitKeepsAtomic(l.fields, b);
    } else {
      BuilderGrows(b, c);
      assert Step(l, c).builder == b + [c];
    }
  }

  lemma EmitKeepsAtomic(fields: seq<string>, b: string)
    requires AllAtomic(fields) && Solid(Plain, b) && Scan(Plain, b) in {Plain, Escaped(false)}
    ensures AllAtomic(Emit(fields, b))
  {
    if TrimSpace(b) != [] {
      EmittedIsAtomic(b);
    }
  }

  lemma {:induction false} RunKeepsInv(s: string)
    ensures BuilderInv(Run(START, s))
  {
    if s != [] {
      RunKeepsInv(s[..|s| - 1]);
      StepKeepsInv(Run(START, s[..|s| - 1]), s[|s| - 1]);
    }
  }

  /** Splitting any field the splitter returned gives that field back, alone. */
  lemma SplitIdempotent(s: string)
    requires Split(s).Ok?
    ensures forall f :: f in Split(s).value ==> Atomic(f) && Split(f) == Ok([f])
  {
    var l := Run(START, s);
    RunKeepsInv(s);
    if l.mode.Escaped? {
      BuilderGrows(l.builder, '\\');
    }
    EmitKeepsAtomic(l.fields, Pending(l));
    forall f | f in Split(s).value ensures Atomic(f) && Split(f) == Ok([f]) {
      AtomicIsFixed(f);
    }
  }

  // ---------------------------------------------------------------------------
  // Splitting a joined text piece by piece

  predicate Separators(s: string) {
    s != [] && forall i :: 0 <= i < |s| ==> IsSeparator(s[i])
  }

  /** A leading run of spaces in the builder and earlier fields do not influence the rest. */
  lemma {:induction false} RunShift(fields: seq<string>, pad: string, s: string) returns (left: string)
    requires AllSpace(pad)
    ensures AllSpace(left)
    ensures var r := Run(START, s);
      Run(Lexer(fields, pad, Plain), s) == Lexer(fields + r.fields, left + r.builder, r.mode)
  {
    if s == [] {
      left := pad;
      assert fields + [] == fields && pad + [] == pad;
    } else {
      var init, c := s[..|s| - 1], s[|s| - 1];
      left := RunShift(fields, pad, init);
      left := StepShift(fields, left, Run(START, init), c);
    }
  }

  lemma StepShift(fields: seq<string>, pad: string, r: Lexer, c: char) returns (left: string)
    requires AllSpace(pad)
    ensures AllSpace(left)
    ensures var t := Step(r, c);
      Step(Lexer(fields + r.fields, pad + r.builder, r.mode), c) == Lexer(fields + t.fields, left + t.builder, t.mode)
  {
    TrimLeadingSpaces(pad, r.builder);
    if r.mode.Plain? && IsSeparator(c) && TrimSpace(r.builder) != [] {
      left := [];
      assert fields + r.fields + [TrimSpace(r.builder)] == fields + (r.fields + [TrimSpace(r.builder)]);
    } else {
      left := pad;
      assert pad + r.builder + ['\\', c] == pad + (r.builder + ['\\', c]);
      assert pad + r.builder + [c] == pad + (r.builder + [c]);
    }
  }

  /** Once a separator was read in plain mode, all that is left in the builder is spaces. */
  lemma {:induction false} RunSeparators(l: Lexer, gap: string)
    requires l.mode == Plain && Separators(gap)
    ensures Run(l, gap).fields == Emit(l.fields, l.builder)
    ensures Run(l, gap).mode == Plain && AllSpace(Run(l, gap).builder)
  {
    var init, c := gap[..|gap| - 1], gap[|gap| - 1];
    assert IsSeparator(c);
    if init == [] {
      TrimEmpty(l.builder);
    } else {
      RunSeparators(l, init);
      TrimEmpty(Run(l, init).builder);
    }
  }

  /** Text that ends outside quotes, with no backslash pending. */
  predicate Closed(s: string) {
    Scan(Plain, s) == Plain
  }

  function Append(a: Result<seq<string>, TagError>, b: Result<seq<string>, TagError>): Result<seq<string>, TagError> {
    if a.Err? then a else if b.Err? then b else Ok(a.value + b.value)
  }

  /** Splitting a closed text, separators and any further text is splitting the two apart. */
  lemma SplitConcat(a: string, gap: string, b: string)
    requires Closed(a) && Separators(gap)
    ensures Split(a).Ok?
    ensures Split(a + gap + b) == Append(Split(a), Split(b))
  {
    RunMode(START, a);
    GapAfter(a, gap, b);
    assert Split(a) == Ok(Emit(Run(START, a).fields, Run(START, a).builder));
  }

  /** After separators read in plain mode, the rest is lexed as from the start. */
  lemma GapThenText(l: Lexer, gap: string, b: string)
    requires l.mode == Plain && Separators(gap)
    ensures Finish(Run(Run(l, gap), b)) == Append(Ok(Emit(l.fields, l.builder)), Split(b))
  {
    RunSeparators(l, gap);
    var m := Run(l, gap);
    var left := RunShift(m.fields, m.builder, b);
    FinishShift(m.fields, left, Run(START, b));
    assert m == Lexer(m.fields, m.builder, Plain);
  }

  lemma FinishShift(fields: seq<string>, left: string, r: Lexer)
    requires AllSpace(left)
    ensures Finish(Lexer(fields + r.fields, left + r.builder, r.mode)) == Append(Ok(fields), Finish(r))
  {
    TrimLeadingSpaces(left, Pending(r));
    assert left + r.builder + ['\\'] == left + (r.builder + ['\\']);
    assert fields + r.fields + [TrimSpace(Pending(r))] == fields + (r.fields + [TrimSpace(Pending(r))]);
  }

  /** `expandVolcengineTagValues`, as a function of the values read so far. */
  function Expand(values: seq<string>): Result<seq<string>, TagError> {
    if values == [] then Ok([])
    else Append(Expand(values[..|values| - 1]), Split(values[|values| - 1]))
  }

  method ExpandTagValues(values: seq<string>) returns (r: Result<seq<string>, TagError>)
    ensures r == Expand(values)
  {
    var pairs: seq<string> := [];
    for i := 0 to |values|
      invariant Expand(values[..i]) == Ok(pairs)
    {
      assert values[..i + 1][..i] == values[..i];
      var fields := SplitTagFields(values[i]);
      if fields.Err? {
        ExpandStopsAtError(values, i + 1);
        return Err(fields.error);
      }
      pairs := pairs + fields.value;
    }
    assert values[..|values|] == values;
    r := Ok(pairs);
  }

  lemma SplitFailsExactly(s: string)
    ensures Split(s).Ok? <==> Unescaped(Scan(Plain, s)).Plain?
  {
    RunMode(START, s);
  }

  /** Expansion fails exactly when some value ends inside a quote. */
  lemma {:induction false} ExpandFailsExactly(values: seq<string>)
    ensures Expand(values).Ok? <==> forall i :: 0 <= i < |values| ==> Unescaped(Scan(Plain, values[i])).Plain?
  {
    if values != [] {
      var init, last := values[..|values| - 1], values[|values| - 1];
      ExpandFailsExactly(init);
      SplitFailsExactly(last);
      assert values == init + [last];
    }
  }

  lemma {:induction false} ExpandStopsAtError(values: seq<string>, n: nat)
    requires n <= |values| && Expand(values[..n]).Err?
    ensures Expand(values) == Expand(values[..n])
  {
    if n == |values| {
      assert values[..n] == values;
    } else {
      assert values[..|values| - 1][..n] == values[..n];
      ExpandStopsAtError(values[..|values| - 1], n);
    }
  }

  lemma AppendLaws(a: Result<seq<string>, TagError>, b: Result<seq<string>, TagError>, c: Result<seq<string>, TagError>)
    ensures Append(Append(a, b), c) == Append(a, Append(b, c))
    ensures Append(a, Ok([])) == a && Append(Ok([]), a) == a
  {
    if a.Ok? && b.Ok? && c.Ok? {
      assert a.value + b.value + c.value == a.value + (b.value + c.value);
    }
    if a.Ok? {
      assert a.value + [] == a.value && [] + a.value == a.value;
    }
  }

  lemma {:induction false} ExpandFirst(v: string, rest: seq<string>)
    ensures Expand([v] + rest) == Append(Split(v), Expand(rest))
  {
    var all := [v] + rest;
    if rest == [] {
      assert all[..|all| - 1] == [] && all[|all| - 1] == v;
      AppendLaws(Split(v), Ok([]), Ok([]));
    } else {
      var init, last := rest[..|rest| - 1], rest[|rest| - 1];
      assert all[..|all| - 1] == [v] + init && all[|all| - 1] == last;
      ExpandFirst(v, init);
      AppendLaws(Split(v), Expand(init), Split(last));
    }
  }

  /** One value has the fields, or the error, of several. */
  ghost predicate MeansTheSame(joined: string, values: seq<string>) {
    Split(joined) == Expand(values)
  }

  lemma ExpandSingle(v: string)
    ensures MeansTheSame(v, [v])
  {
    assert [v] == [v] + [];
    ExpandFirst(v, []);
    AppendLaws(Split(v), Ok([]), Ok([]));
  }

  /** Values with a gap of separators after each of them but the last. */
  function Join(values: seq<string>, gaps: seq<string>): string
    requires |gaps| + 1 >= |values|
  {
    if values == [] then []
    else if |values| == 1 then values[0]
    else values[0] + gaps[0] + Join(values[1..], gaps[1..])
  }

  lemma JoinOneMore(v: string, gap: string, joined: string, rest: seq<string>)
    requires Closed(v) && Separators(gap) && MeansTheSame(joined, rest)
    ensures MeansTheSame(v + gap + joined, [v] + rest)
  {
    SplitConcat(v, gap, joined);
    ExpandFirst(v, rest);
  }

  /** Several `--tag` values mean the same as one value that joins them with whitespace,
      provided every value but the last ends outside quotes with no backslash pending. */
  lemma {:induction false} JoinedValuesSplitAlike(values: seq<string>, gaps: seq<string>)
    requires |gaps| + 1 >= |values|
    requires forall g :: g in gaps ==> Separators(g)
    requires forall i :: 0 <= i < |values| - 1 ==> Closed(values[i])
    ensures MeansTheSame(Join(values, gaps), values)
  {
    if values == [] {
    } else if |values| == 1 {
      ExpandSingle(values[0]);
      assert values == [values[0]];
    } else {
      JoinedValuesSplitAlike(values[1..], gaps[1..]);
      JoinOneMore(values[0], gaps[0], Join(values[1..], gaps[1..]), values[1..]);
      assert [values[0]] + values[1..] == values;
    }
  }

  // ---------------------------------------------------------------------------
  // Exactly when joining keeps the meaning

  /** Nothing but spaces up to a separator or the end. */
  predicate StartsBlank(s: string) {
    exists j :: 0 <= j <= |s| && AllSpace(s[..j]) && (j == |s| || IsSeparator(s[j]))
  }

  /** The text ends inside a quote, a backslash pending or not. */
  predicate OpenQuote(s: string) {
    Unescaped(Scan(Plain, s)).Quoted?
  }

  /** The first plain separator of `s`, its length when there is none. */
  lemma {:induction false} FirstSeparator(s: string) returns (k: nat)
    ensures k <= |s| && Solid(Plain, s[..k])
    ensures k < |s| ==> IsSeparator(s[k]) && Closed(s[..k])
  {
    if s == [] {
      k := 0;
    } else {
      var init, c := s[..|s| - 1], s[|s| - 1];
      k := FirstSeparator(init);
      if k < |init| {
        assert init[..k] == s[..k];
      } else {
        assert init[..k] == init;
        if !(IsSeparator(c) && Closed(init)) {
          SolidConcat(Plain, init, [c]);
          SolidOne(Scan(Plain, init), c);
          assert init + [c] == s;
          k := |s|;
          assert s[..k] == s;
        }
      }
    }
  }

  lemma BlankUpToSeparator(s: string, k: nat)
    requires k <= |s| && Solid(Plain, s[..k]) && (k < |s| ==> IsSeparator(s[k]))
    ensures StartsBlank(s) <==> AllSpace(s[..k])
  {
    if StartsBlank(s) {
      var j :| 0 <= j <= |s| && AllSpace(s[..j]) && (j == |s| || IsSeparator(s[j]));
      if j < k {
        assert s[..k][..j] == s[..j] && IsSeparator(s[..k][j]);
        ScanSpaces(Plain, s[..j]);
      } else {
        assert s[..k] == s[..j][..k];
      }
    }
  }

  /** The one field a text without a plain separator yields. */
  lemma SplitSolid(x: string)
    requires Solid(Plain, x)
    ensures Split(x) == if OpenQuote(x) then Err(UnterminatedQuote) else Ok(Emit([], x))
  {
    RunSolid(START, x);
    assert [] + x == x;
  }

  /** After a pending backslash took the separator, the builder holds the value's last field. */
  lemma EscapedSeparator(a: string, g: char)
    requires Scan(Plain, a) == Escaped(false) && IsSeparator(g)
    ensures var l := Run(START, a + [g]);
      && l.mode == Plain && AllSpace([g])
      && TrimSpace(l.builder) != [] && Split(a) == Ok(l.fields + [TrimSpace(l.builder)])
      && l.builder == Pending(Run(START, a)) + [g]
  {
    var before := Run(START, a);
    RunMode(START, a);
    assert (a + [g])[..|a|] == a;
    assert before.builder + ['\\'] + [g] == before.builder + ['\\', g];
    var core := before.builder + ['\\'];
    TrimTrailingSpaces(core, [g]);
    TrimEmpty(core);
    assert !IsSpace(core[|core| - 1]);
  }

  lemma TrimTrailingSpaces(s: string, pad: string)
    requires AllSpace(pad)
    ensures TrimSpace(s + pad) == TrimSpace(s)
  {
    var left, right := TrimPads(s);
    assert s + pad == left + TrimSpace(s) + (right + pad);
    TrimUnique(left, TrimSpace(s), right + pad);
  }

  /** A pending backslash before two separators or more: the first is escaped, trimmed off the
      field, and the second still separates. */
  lemma WideGapSeparates(a: string, gap: string, b: string)
    requires Scan(Plain, a) == Escaped(false) && Separators(gap) && |gap| > 1
    ensures Split(a + gap + b) == Append(Split(a), Split(b))
  {
    EscapedSeparator(a, gap[0]);
    assert a + gap == a + [gap[0]] + gap[1..];
    GapAfter(a + [gap[0]], gap[1..], b);
  }

  /** What separators and a text after a closed beginning split into. */
  lemma GapAfter(a: string, gap: string, b: string)
    requires Run(START, a).mode == Plain && Separators(gap)
    ensures Split(a + gap + b) == Append(Ok(Emit(Run(START, a).fields, Run(START, a).builder)), Split(b))
  {
    RunConcat(START, a, gap);
    RunConcat(START, a + gap, b);
    GapThenText(Run(START, a), gap, b);
  }

  /** A pending backslash before a single separator glues on a text without a plain separator:
      the last field of the one and the only field of the other become one. */
  lemma GluesSolid(a: string, g: char, x: string)
    requires Scan(Plain, a) == Escaped(false) && IsSeparator(g) && Solid(Plain, x) && !OpenQuote(x)
    ensures Split(a).Ok? && Split(a + [g] + x).Ok? && Split(x) == Ok(Emit([], x))
    ensures |Split(a + [g] + x).value| == |Split(a).value|
    ensures AllSpace(x) ==> Split(a + [g] + x) == Split(a)
  {
    var l := Run(START, a + [g]);
    EscapedSeparator(a, g);
    RunConcat(START, a + [g], x);
    RunSolid(l, x);
    SplitSolid(x);
    TrimEmpty(l.builder);
    TrimEmpty(l.builder + x);
    var i :| 0 <= i < |l.builder| && !IsSpace(l.builder[i]);
    assert (l.builder + x)[i] == l.builder[i];
    if AllSpace(x) { TrimTrailingSpaces(l.builder, x); }
  }

  /** A pending backslash before a single separator joins two fields into one, unless the second
      text begins blank. */
  lemma PendingBackslashGlues(a: string, g: char, b: string)
    requires Scan(Plain, a) == Escaped(false) && IsSeparator(g) && !OpenQuote(b)
    ensures Split(a).Ok? && Split(b).Ok? && Split(a + [g] + b).Ok?
    ensures StartsBlank(b) ==> Split(a + [g] + b) == Append(Split(a), Split(b))
    ensures !StartsBlank(b) ==> |Split(a + [g] + b).value| == |Split(a).value| + |Split(b).value| - 1
  {
    var k := FirstSeparator(b);
    BlankUpToSeparator(b, k);
    if k == |b| {
      assert b[..k] == b;
      GluesWhole(a, g, b);
    } else {
      GluesUpToSeparator(a, g, b, k);
    }
  }

  lemma GluesWhole(a: string, g: char, b: string)
    requires Scan(Plain, a) == Escaped(false) && IsSeparator(g) && Solid(Plain, b) && !OpenQuote(b)
    ensures Split(a).Ok? && Split(b).Ok? && Split(a + [g] + b).Ok?
    ensures AllSpace(b) ==> Split(a + [g] + b) == Append(Split(a), Split(b))
    ensures !AllSpace(b) ==> |Split(a + [g] + b).value| == |Split(a).value| + |Split(b).value| - 1
  {
    TrimEmpty(b);
    GluesSolid(a, g, b);
    AppendLaws(Split(a), Ok([]), Ok([]));
  }

  lemma SplitAt(s: string, x: string, c: char, y: string)
    requires s == x + [c] + y && Closed(x) && IsSeparator(c)
    ensures Split(x).Ok? && Split(s) == Append(Split(x), Split(y))
  {
    SplitConcat(x, [c], y);
  }

  /** Both texts, glued and apart, split alike from the separator on. */
  lemma SplitsAtSeparator(a: string, g: char, b: string, k: nat)
    requires Scan(Plain, a) == Escaped(false) && IsSeparator(g)
    requires k < |b| && Closed(b[..k]) && IsSeparator(b[k])
    ensures Split(b) == Append(Split(b[..k]), Split(b[k + 1..]))
    ensures Split(a + [g] + b) == Append(Split(a + [g] + b[..k]), Split(b[k + 1..]))
  {
    GlueCloses(a, g, b[..k]);
    SplitAt(b, b[..k], b[k], b[k + 1..]);
    SplitAt(a + [g] + b, a + [g] + b[..k], b[k], b[k + 1..]);
  }

  lemma GluesUpToSeparator(a: string, g: char, b: string, k: nat)
    requires Scan(Plain, a) == Escaped(false) && IsSeparator(g) && !OpenQuote(b)
    requires k < |b| && Solid(Plain, b[..k]) && Closed(b[..k]) && IsSeparator(b[k])
    ensures Split(a).Ok? && Split(b).Ok? && Split(a + [g] + b).Ok?
    ensures AllSpace(b[..k]) ==> Split(a + [g] + b) == Append(Split(a), Split(b))
    ensures !AllSpace(b[..k]) ==> |Split(a + [g] + b).value| == |Split(a).value| + |Split(b).value| - 1
  {
    GluesSolid(a, g, b[..k]);
    SplitsAtSeparator(a, g, b, k);
    SplitFailsExactly(b);
    TrimEmpty(b[..k]);
    AppendCounts(Split(a), Split(a + [g] + b[..k]), Split(b[..k]), Split(b[k + 1..]));
  }

  lemma AppendCounts(a: Result<seq<string>, TagError>, ax: Result<seq<string>, TagError>,
                     x: Result<seq<string>, TagError>, y: Result<seq<string>, TagError>)
    requires a.Ok? && ax.Ok? && x.Ok? && |ax.value| == |a.value| && |x.value| <= 1
    requires x.value == [] ==> ax == a
    ensures x.value == [] ==> Append(ax, y) == Append(a, Append(x, y))
    ensures x.value != [] && y.Ok? ==> |Append(ax, y).value| == |a.value| + |Append(x, y).value| - 1
  {
    if y.Ok? { assert [] + y.value == y.value; }
  }

  lemma GlueCloses(a: string, g: char, x: string)
    requires Scan(Plain, a) == Escaped(false) && Closed(x)
    ensures Closed(a + [g] + x)
  {
    ScanConcat(Plain, a + [g], x);
    ScanConcat(Plain, a, [g]);
    ScanOne(Escaped(false), g);
  }

  /** A quote left open is an error apart; joined, it swallows the gap and what follows, and the
      outcome hangs on whether the second text closes it. */
  lemma OpenQuoteSwallows(a: string, gap: string, b: string)
    requires OpenQuote(a) && Separators(gap)
    ensures Append(Split(a), Split(b)) == Err(UnterminatedQuote)
    ensures Split(a + gap + b).Ok? <==> !Unescaped(Scan(Quoted, b)).Quoted?
  {
    SplitFailsExactly(a);
    SplitFailsExactly(a + gap + b);
    assert AllSpace(gap);
    ScanConcat(Plain, a + gap, b);
    ScanConcat(Plain, a, gap);
    ScanSpaces(Scan(Plain, a), gap);
  }

  /** The two texts, joined by the gap, keep their meaning. */
  predicate Joinable(a: string, gap: string, b: string) {
    || Closed(a)
    || (OpenQuote(a) && Unescaped(Scan(Quoted, b)).Quoted?)
    || (Scan(Plain, a) == Escaped(false) && (|gap| > 1 || OpenQuote(b) || StartsBlank(b)))
  }

  /** Joining two values with whitespace splits like the two apart if and only if the first ends
      closed, or in a quote that the second leaves open, or with a backslash pending that meets
      two separators, a second value in error or one that begins blank. */
  lemma JoinedExactly(a: string, gap: string, b: string)
    requires Separators(gap)
    ensures Split(a + gap + b) == Append(Split(a), Split(b)) <==> Joinable(a, gap, b)
  {
    if Closed(a) {
      SplitConcat(a, gap, b);
    } else if OpenQuote(a) {
      OpenQuoteSwallows(a, gap, b);
    } else if |gap| > 1 {
      WideGapSeparates(a, gap, b);
    } else if OpenQuote(b) {
      assert gap == [gap[0]];
      SplitFailsExactly(a);
      SplitFailsExactly(b);
      SplitFailsExactly(a + gap + b);
      ScanConcat(Plain, a + gap, b);
      ScanConcat(Plain, a, gap);
      ScanOne(Escaped(false), gap[0]);
    } else {
      assert gap == [gap[0]];
      PendingBackslashGlues(a, gap[0], b);
    }
  }

  /** Every value but the last is joined to what follows it without being glued to it. */
  predicate NothingGlued(values: seq<string>, gaps: seq<string>)
    requires |gaps| + 1 >= |values|
  {
    |values| <= 1 ||
      (Joinable(values[0], gaps[0], Join(values[1..], gaps[1..])) && NothingGlued(values[1..], gaps[1..]))
  }

  /** Values that each split: joined they split too, into as many fields exactly when nothing is
      glued, and then into the same. */
  lemma {:induction false} JoinedOkExactly(values: seq<string>, gaps: seq<string>)
    requires |gaps| + 1 >= |values|
    requires forall g :: g in gaps ==> Separators(g)
    requires forall v :: v in values ==> !OpenQuote(v)
    ensures !OpenQuote(Join(values, gaps)) && Split(Join(values, gaps)).Ok? && Expand(values).Ok?
    ensures |Split(Join(values, gaps)).value| <= |Expand(values).value|
    ensures MeansTheSame(Join(values, gaps), values) <==> NothingGlued(values, gaps)
  {
    if values == [] {
    } else if |values| == 1 {
      SplitFailsExactly(values[0]);
      ExpandSingle(values[0]);
      assert values == [values[0]];
    } else {
      var v, rest := values[0], Join(values[1..], gaps[1..]);
      JoinedOkExactly(values[1..], gaps[1..]);
      ExpandFirst(v, values[1..]);
      assert [v] + values[1..] == values;
      OneMoreExactly(v, gaps[0], rest, values[1..]);
    }
  }

  lemma OneMoreExactly(v: string, gap: string, rest: string, others: seq<string>)
    requires !OpenQuote(v) && Separators(gap) && !OpenQuote(rest) && Expand(others).Ok? && Split(rest).Ok?
    requires |Split(rest).value| <= |Expand(others).value|
    ensures !OpenQuote(v + gap + rest) && Split(v + gap + rest).Ok? && Split(v).Ok?
    ensures |Split(v + gap + rest).value| <= |Split(v).value| + |Expand(others).value|
    ensures Split(v + gap + rest) == Append(Split(v), Expand(others)) <==>
      Joinable(v, gap, rest) && Split(rest) == Expand(others)
  {
    JoinedExactly(v, gap, rest);
    SplitFailsExactly(v);
    SplitFailsExactly(v + gap + rest);
    if Joinable(v, gap, rest) {
      if Split(rest) != Expand(others) {
        var a, b, c := Split(v).value, Split(rest).value, Expand(others).value;
        assert (a + b)[|a|..] == b && (a + c)[|a|..] == c;
      }
    } else {
      assert gap == [gap[0]];
      PendingBackslashGlues(v, gap[0], rest);
    }
  }

  /** Several `--tag` values and their join by whitespace mean the same if and only if: when no
      value ends inside a quote, nothing is glued; when one does, the joined text does too. */
  lemma JoinedValuesExactly(values: seq<string>, gaps: seq<string>)
    requires |gaps| + 1 >= |values|
    requires forall g :: g in gaps ==> Separators(g)
    ensures MeansTheSame(Join(values, gaps), values) <==>
      if forall v :: v in values ==> !OpenQuote(v) then NothingGlued(values, gaps)
      else OpenQuote(Join(values, gaps))
  {
    if forall v :: v in values ==> !OpenQuote(v) {
      JoinedOkExactly(values, gaps);
    } else {
      OpenValueFails(values);
      SplitFailsExactly(Join(values, gaps));
    }
  }

  lemma {:induction false} OpenValueFails(values: seq<string>)
    requires exists v :: v in values && OpenQuote(v)
    ensures Expand(values) == Err(UnterminatedQuote)
  {
    var init, last := values[..|values| - 1], values[|values| - 1];
    assert values == init + [last];
    SplitFailsExactly(last);
    if exists v :: v in init && OpenQuote(v) {
      OpenValueFails(init);
    } else {
      ExpandFailsExactly(init);
      assert forall i :: 0 <= i < |init| ==> init[i] in init;
      assert Expand(init).Ok? && OpenQuote(last);
    }
  }

  /** Both ways of changing the meaning occur: a glued field... */
  lemma GluedExample()
    ensures Split("a\\" + " " + "b") == Ok(["a\\ b"])
    ensures Split("a\\") == Ok(["a\\"]) && Split("b") == Ok(["b"])
  {
    assert "a\\" + " " + "b" == "a\\ b";
    ExampleAtom("a\\ b");
    ExampleAtom("a\\");
    ExampleAtom("b");
  }

  /** ...and a swallowed error. */
  lemma SwallowedExample()
    ensures Split("\"a" + " " + "b\"") == Ok(["\"a b\""])
    ensures Split("\"a") == Err(UnterminatedQuote)
  {
    assert "\"a" + " " + "b\"" == "\"a b\"";
    ExampleAtom("\"a b\"");
    ScanPrefixes("\"a");
    SplitFailsExactly("\"a");
  }

  /** The texts of the example are fields. */
  lemma ExampleAtom(f: string)
    requires f in ["a\\ b", "a\\", "b", "\"a b\""]
    ensures Split(f) == Ok([f])
  {
    ScanPrefixes(f);
    if f == "a\\ b" {
      assert Scan(Plain, f[..1]) == Plain && Scan(Plain, f[..2]) == Escaped(false) && Scan(Plain, f[..3]) == Plain;
    } else if f == "\"a b\"" {
      assert Scan(Plain, f[..1]) == Quoted && Scan(Plain, f[..2]) == Quoted && Scan(Plain, f[..3]) == Quoted;
      assert Scan(Plain, f[..4]) == Quoted;
    }
    AtomicIsFixed(f);
  }

  /** A scan, prefix by prefix. */
  lemma ScanPrefixes(s: string)
    ensures Scan(Plain, s[..0]) == Plain && s[..|s|] == s
    ensures forall i :: 0 < i <= |s| ==> Scan(Plain, s[..i]) == Advance(Scan(Plain, s[..i - 1]), s[i - 1])
  {
    forall i | 0 < i <= |s| ensures Scan(Plain, s[..i]) == Advance(Scan(Plain, s[..i - 1]), s[i - 1]) {
      assert s[..i][..i - 1] == s[..i - 1];
    }
  }

  // ---------------------------------------------------------------------------
  // Which characters separate

  /** A text of which no character is a space, a quote or a backslash. */
  predicate Word(s: string) {
    s != [] && forall i :: 0 <= i < |s| ==> !IsSpace(s[i]) && s[i] != '"' && s[i] != '\\'
  }

  lemma {:induction false} ScanWord(m: Mode, s: string)
    requires forall i :: 0 <= i < |s| ==> !IsSpace(s[i]) && s[i] != '"' && s[i] != '\\'
    ensures Scan(m, s) == if s == [] then m else Unescaped(m)
    ensures Solid(m, s)
  {
    if s != [] {
      ScanWord(m, s[..|s| - 1]);
    }
  }

  lemma WordIsAtomic(s: string)
    requires Word(s)
    ensures Atomic(s) && Closed(s)
  {
    ScanWord(Plain, s);
  }

  /** Between two words, exactly blank, tab, newline and return separate. */
  lemma SeparatorsExactly(a: string, c: char, b: string)
    requires Word(a) && Word(b)
    ensures Split(a + [c] + b) == Ok([a, b]) <==> c == ' ' || c == '\t' || c == '\n' || c == '\r'
  {
    WordIsAtomic(a);
    WordIsAtomic(b);
    AtomicIsFixed(a);
    AtomicIsFixed(b);
    if IsSeparator(c) {
      SplitConcat(a, [c], b);
      assert [a] + [b] == [a, b];
    } else {
      ScanWord(Advance(Plain, c), b);
      SolidConcat(Plain, a + [c], b);
      SolidConcat(Plain, a, [c]);
      SolidOne(Plain, c);
      ScanConcat(Plain, a, [c]);
      ScanOne(Plain, c);
      SplitSolid(a + [c] + b);
    }
  }
}
