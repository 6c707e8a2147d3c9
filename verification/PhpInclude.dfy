/** Static PHP include expressions: quoted strings and directory-relative paths (src/php.rs). */
module PhpInclude {
  import opened Orders

  datatype StaticInclude =
    | Literal(path: string)
    | DirectoryRelative(parents: nat, path: string)

  // ---------- Quoted strings ----------

  /** Leftmost non-overlapping replacement of the two-character pattern a b by r. */
  function ReplacePair(text: string, a: char, b: char, r: char): string {
    if |text| < 2 then text
    else if text[0] == a && text[1] == b then [r] + ReplacePair(text[2..], a, b, r)
    else [text[0]] + ReplacePair(text[1..], a, b, r)
  }

  /** The two replacement passes of the source. */
  function TwoPass(raw: string, quote: char): string {
    ReplacePair(ReplacePair(raw, '\\', '\\', '\\'), '\\', quote, quote)
  }

  /** The meaning: one left-to-right pass in which a backslash protects a backslash or a quote. */
  function Unescape(raw: string, quote: char): string {
    if raw == "" then ""
    else if |raw| >= 2 && raw[0] == '\\' && (raw[1] == '\\' || raw[1] == quote)
    then [raw[1]] + Unescape(raw[2..], quote)
    else [raw[0]] + Unescape(raw[1..], quote)
  }

  function Escape(s: string, quote: char): string {
    if s == "" then ""
    else (if s[0] == '\\' || s[0] == quote then ['\\', s[0]] else [s[0]]) + Escape(s[1..], quote)
  }

  /** Text the scanner can accept between two quotes: every quote is escaped, and no escape is left open. */
  predicate Enclosable(raw: string, quote: char) {
    if raw == "" then true
    else if raw[0] == '\\' then |raw| >= 2 && Enclosable(raw[2..], quote)
    else raw[0] != quote && Enclosable(raw[1..], quote)
  }

  predicate IsQuote(c: char) {
    c == '\'' || c == '"'
  }

  /** A double-quoted string with these characters may interpolate. */
  predicate Interpolates(raw: string) {
    '$' in raw || '{' in raw
  }

  /** Position of the closing quote at or after i, outside any escape. */
  function Closing(text: string, quote: char, i: nat): (r: Option<nat>)
    ensures r.Some? ==> i <= r.value < |text| && text[r.value] == quote
    decreases |text| - i
  {
    if i >= |text| then None
    else if text[i] == '\\' then Closing(text, quote, i + 2)
    else if text[i] == quote then Some(i)
    else Closing(text, quote, i + 1)
  }

  function Quoted(text: string): (r: Option<(string, string)>)
    ensures r.Some? ==> |r.value.1| + 2 <= |text|
  {
    if text == "" || !IsQuote(text[0]) then None
    else
      var close := Closing(text, text[0], 1);
      if close.None? then None
      else
        var raw := text[1..close.value];
        if text[0] == '"' && Interpolates(raw) then None
        else Some((TwoPass(raw, text[0]), text[close.value + 1..]))
  }

  method TakeQuoted(text: string) returns (r: Option<(string, string)>)
    ensures r == Quoted(text)
  {
    if text == "" {
      return None;
    }
    var quote := text[0];
    if quote != '\'' && quote != '"' {
      return None;
    }
    var escaped := false;
    for offset := 1 to |text|
      invariant Closing(text, quote, 1) == Closing(text, quote, if escaped then offset + 1 else offset)
    {
      if escaped {
        escaped := false;
        continue;
      }
      var byte := text[offset];
      if byte == '\\' {
        escaped := true;
      } else if byte == quote {
        var raw := text[1..offset];
        if quote == '"' && ('$' in raw || '{' in raw) {
          return None;
        }
        var value := ReplacePair(ReplacePair(raw, '\\', '\\', '\\'), '\\', quote, quote);
        return Some((value, text[offset + 1..]));
      }
    }
    return None;
  }

  lemma FirstAfterReplacing(text: string, quote: char)
    requires quote != '\\'
    ensures text != "" ==>
              ReplacePair(text, '\\', '\\', '\\') != "" && ReplacePair(text, '\\', '\\', '\\')[0] == text[0]
    ensures text == "" ==> ReplacePair(text, '\\', '\\', '\\') == ""
  {
  }

  lemma ReplacePairStep(c: char, rest: string, a: char, b: char, r: char)
    requires c != a || rest == "" || rest[0] != b
    ensures ReplacePair([c] + rest, a, b, r) == [c] + ReplacePair(rest, a, b, r)
  {
    assert ([c] + rest)[1..] == rest;
    if rest == "" {
      assert ReplacePair([c], a, b, r) == [c];
    }
  }

  lemma ReplacePairHit(rest: string, a: char, b: char, r: char)
    ensures ReplacePair([a, b] + rest, a, b, r) == [r] + ReplacePair(rest, a, b, r)
  {
    assert ([a, b] + rest)[2..] == rest;
  }

  /** On every text the scanner can produce the two passes agree with the one-pass meaning. */
  lemma {:induction false} TwoPassIsOnePass(raw: string, quote: char)
    requires Enclosable(raw, quote) && IsQuote(quote)
    ensures TwoPass(raw, quote) == Unescape(raw, quote)
  {
    if raw != "" {
      if raw[0] != '\\' {
        var rest := raw[1..];
        TwoPassIsOnePass(rest, quote);
        assert raw == [raw[0]] + rest;
        ReplacePairStep(raw[0], rest, '\\', '\\', '\\');
        ReplacePairStep(raw[0], ReplacePair(rest, '\\', '\\', '\\'), '\\', quote, quote);
      } else {
        var c, rest := raw[1], raw[2..];
        var once := ReplacePair(rest, '\\', '\\', '\\');
        TwoPassIsOnePass(rest, quote);
        assert raw == ['\\', c] + rest == ['\\'] + ([c] + rest);
        FirstAfterReplacing(rest, quote);
        if c == '\\' {
          ReplacePairHit(rest, '\\', '\\', '\\');
          ReplacePairStep('\\', once, '\\', quote, quote);
        } else {
          ReplacePairStep('\\', [c] + rest, '\\', '\\', '\\');
          ReplacePairStep(c, rest, '\\', '\\', '\\');
          assert ReplacePair(raw, '\\', '\\', '\\') == ['\\', c] + once == ['\\'] + ([c] + once);
          if c == quote {
            ReplacePairHit(once, '\\', quote, quote);
          } else {
            ReplacePairStep('\\', [c] + once, '\\', quote, quote);
            ReplacePairStep(c, once, '\\', quote, quote);
            UnescapeOther(c, rest, quote);
          }
        }
      }
    }
  }

  lemma UnescapeOther(c: char, rest: string, quote: char)
    requires c != '\\' && c != quote
    ensures Unescape(['\\', c] + rest, quote) == ['\\', c] + Unescape(rest, quote)
  {
    assert (['\\', c] + rest)[1..] == [c] + rest;
    assert ([c] + rest)[1..] == rest;
  }

  /** The agreement is a property of scanned text: on \\' the passes and the meaning differ. */
  lemma TwoPassDiffersOutsideScannedText()
    ensures !Enclosable("\\\\'", '\'')
    ensures TwoPass("\\\\'", '\'') == "'" && Unescape("\\\\'", '\'') == "\\'"
  {
    var raw := "\\\\'";
    assert raw[2..] == "'";
    assert ReplacePair(raw, '\\', '\\', '\\') == "\\'";
    assert "\\'"[2..] == "";
    assert "'"[1..] == "";
  }

  lemma {:induction false} EscapeEncloses(s: string, quote: char)
    requires IsQuote(quote)
    ensures Enclosable(Escape(s, quote), quote)
    ensures Unescape(Escape(s, quote), quote) == s
    ensures forall c :: c != '\\' && c != quote ==> (c in Escape(s, quote) <==> c in s)
  {
    if s != "" {
      EscapeEncloses(s[1..], quote);
      var rest := Escape(s[1..], quote);
      assert s == [s[0]] + s[1..];
      if s[0] == '\\' || s[0] == quote {
        assert (['\\', s[0]] + rest)[2..] == rest;
      } else {
        assert ([s[0]] + rest)[1..] == rest;
      }
    }
  }

  /** The scanner stops exactly at the end of an enclosable text. */
  lemma {:induction false} ClosesAfter(text: string, quote: char, i: nat, raw: string)
    requires IsQuote(quote) && Enclosable(raw, quote)
    requires i + |raw| < |text| && text[i..i + |raw|] == raw && text[i + |raw|] == quote
    ensures Closing(text, quote, i) == Some(i + |raw|)
    decreases |raw|
  {
    if raw != "" {
      assert text[i] == raw[0];
      if raw[0] == '\\' {
        assert text[i + 2..i + |raw|] == raw[2..];
        ClosesAfter(text, quote, i + 2, raw[2..]);
      } else {
        assert text[i + 1..i + |raw|] == raw[1..];
        ClosesAfter(text, quote, i + 1, raw[1..]);
      }
    }
  }

  lemma {:induction false} ClosedTextEnclosable(text: string, quote: char, i: nat)
    requires IsQuote(quote) && Closing(text, quote, i).Some?
    ensures Enclosable(text[i..Closing(text, quote, i).value], quote)
    decreases |text| - i
  {
    var close := Closing(text, quote, i).value;
    var raw := text[i..close];
    if text[i] == '\\' {
      ClosedTextEnclosable(text, quote, i + 2);
      assert raw[2..] == text[i + 2..close];
    } else if text[i] != quote {
      ClosedTextEnclosable(text, quote, i + 1);
      assert raw[1..] == text[i + 1..close];
    }
  }

  /** A text that can stand between these quotes: it does not close them, and does not look like interpolation. */
  predicate Acceptable(raw: string, quote: char) {
    IsQuote(quote) && Enclosable(raw, quote) && !(quote == '"' && Interpolates(raw))
  }

  function Enquoted(raw: string, quote: char): string {
    [quote] + raw + [quote]
  }

  ghost predicate Reads(text: string, quote: char, raw: string, value: string, rest: string) {
    Acceptable(raw, quote) && text == Enquoted(raw, quote) + rest && value == Unescape(raw, quote)
  }

  /** Quoted answers exactly the texts that open with a closed, non-interpolating string. */
  lemma QuotedExactly(text: string, value: string, rest: string)
    ensures Quoted(text) == Some((value, rest)) <==> exists quote, raw :: Reads(text, quote, raw, value, rest)
  {
    if Quoted(text) == Some((value, rest)) {
      var quote := text[0];
      var close := Closing(text, quote, 1).value;
      var raw := text[1..close];
      ClosedTextEnclosable(text, quote, 1);
      TwoPassIsOnePass(raw, quote);
      assert text == Enquoted(raw, quote) + rest;
      assert Reads(text, quote, raw, value, rest);
    }
    if quote, raw :| Reads(text, quote, raw, value, rest) {
      QuotedReads(text, quote, raw, value, rest);
    }
  }

  lemma QuotedReads(text: string, quote: char, raw: string, value: string, rest: string)
    requires Reads(text, quote, raw, value, rest)
    ensures Quoted(text) == Some((value, rest))
  {
    assert text[0] == quote && text[1..1 + |raw|] == raw && text[1 + |raw|] == quote;
    ClosesAfter(text, quote, 1, raw);
    TwoPassIsOnePass(raw, quote);
    assert text[1 + |raw| + 1..] == rest;
  }

  function Print(s: string, quote: char): string {
    Enquoted(Escape(s, quote), quote)
  }

  /** Printable in these quotes: a double-quoted string must not look like interpolation. */
  predicate Printable(s: string, quote: char) {
    IsQuote(quote) && (quote == '"' ==> !Interpolates(s))
  }

  /** Reading back a printed string yields the string and the untouched tail. */
  lemma QuotedRoundTrip(s: string, quote: char, rest: string)
    requires Printable(s, quote)
    ensures Quoted(Print(s, quote) + rest) == Some((s, rest))
  {
    EscapeEncloses(s, quote);
    var raw := Escape(s, quote);
    assert '$' != quote && '{' != quote;
    QuotedReads(Print(s, quote) + rest, quote, raw, s, rest);
  }

  // ---------- Whitespace ----------

  /** Unicode White_Space, as char::is_whitespace decides it. */
  predicate IsSpace(c: char) {
    var n := c as int;
    || 0x09 <= n <= 0x0D || n == 0x20 || n == 0x85 || n == 0xA0 || n == 0x1680
    || 0x2000 <= n <= 0x200A || n == 0x2028 || n == 0x2029 || n == 0x202F || n == 0x205F || n == 0x3000
  }

  predicate Blank(s: string) {
    forall i :: 0 <= i < |s| ==> IsSpace(s[i])
  }

  function TrimStart(s: string): (r: string)
    ensures |r| <= |s|
  {
    if s != "" && IsSpace(s[0]) then TrimStart(s[1..]) else s
  }

  function TrimEnd(s: string): (r: string)
    ensures |r| <= |s|
  {
    if s != "" && IsSpace(s[|s| - 1]) then TrimEnd(s[..|s| - 1]) else s
  }

  function Trim(s: string): (r: string)
    ensures |r| <= |s|
  {
    TrimEnd(TrimStart(s))
  }

  lemma {:induction false} TrimStartDrops(blank: string, s: string)
    requires Blank(blank)
    requires s != "" ==> !IsSpace(s[0])
    ensures TrimStart(blank + s) == s
  {
    if blank != "" {
      assert (blank + s)[1..] == blank[1..] + s;
      TrimStartDrops(blank[1..], s);
    } else {
      assert blank + s == s;
    }
  }

  lemma {:induction false} TrimEndDrops(s: string, blank: string)
    requires Blank(blank)
    requires s != "" ==> !IsSpace(s[|s| - 1])
    ensures TrimEnd(s + blank) == s
  {
    if blank != "" {
      assert (s + blank)[..|s + blank| - 1] == s + blank[..|blank| - 1];
      TrimEndDrops(s, blank[..|blank| - 1]);
    } else {
      assert s + blank == s;
    }
  }

  predicate Tight(s: string) {
    s != "" && !IsSpace(s[0]) && !IsSpace(s[|s| - 1])
  }

  lemma TrimDrops(before: string, s: string, after: string)
    requires Blank(before) && Blank(after) && Tight(s)
    ensures Trim(before + s + after) == s
  {
    assert before + s + after == before + (s + after);
    TrimStartDrops(before, s + after);
    TrimEndDrops(s, after);
  }

  // ---------- The include parser ----------

  const DIR := "__DIR__"
  const DIRNAME := "dirname("

  function StripParens(text: string): string
    decreases |text|
  {
    if |text| >= 2 && text[0] == '(' && text[|text| - 1] == ')' then StripParens(Trim(text[1..|text| - 1])) else text
  }

  method StripWrappingParentheses(input: string) returns (text: string)
    ensures text == StripParens(input)
  {
    text := input;
    while |text| >= 2 && text[0] == '(' && text[|text| - 1] == ')'
      invariant StripParens(text) == StripParens(input)
      decreases |text|
    {
      text := Trim(text[1..|text| - 1]);
    }
  }

  function QuotedPath(text: string): Option<string> {
    var q := Quoted(text);
    if q.Some? && Trim(q.value.1) == "" then Some(q.value.0) else None
  }

  /** Nested dirname( prefixes and what follows them. */
  function Dirnames(text: string): (nat, string) {
    if DIRNAME <= text then var (n, rest) := Dirnames(text[|DIRNAME|..]); (n + 1, rest) else (0, text)
  }

  function StripCloses(text: string, n: nat): Option<string> {
    if n == 0 then Some(text)
    else if text != "" && text[0] == ')' then StripCloses(text[1..], n - 1)
    else None
  }

  function Base(text: string): Option<(nat, string)> {
    if DIR <= text then Some((0, text[|DIR|..]))
    else
      var (parents, inner) := Dirnames(text);
      if DIR <= inner then
        var rest := StripCloses(inner[|DIR|..], parents);
        if rest.Some? then Some((parents, rest.value)) else None
      else None
  }

  method DirectoryBase(text: string) returns (r: Option<(nat, string)>)
    ensures r == Base(text)
  {
    if DIR <= text {
      return Some((0, text[|DIR|..]));
    }
    var parents := 0;
    var current := text;
    while DIRNAME <= current
      invariant Dirnames(text) == (parents + Dirnames(current).0, Dirnames(current).1)
      decreases |current|
    {
      parents := parents + 1;
      current := current[|DIRNAME|..];
    }
    if !(DIR <= current) {
      return None;
    }
    var remainder := current[|DIR|..];
    for k := 0 to parents
      invariant StripCloses(current[|DIR|..], parents) == StripCloses(remainder, parents - k)
    {
      if remainder == "" || remainder[0] != ')' {
        return None;
      }
      remainder := remainder[1..];
    }
    return Some((parents, remainder));
  }

  /** The concatenated segments of `. 'a' . 'b'`, given text without leading whitespace. */
  function Segments(text: string): Option<string>
    decreases |text|
  {
    if text == "" then Some("")
    else if text[0] != '.' then None
    else
      var q := Quoted(TrimStart(text[1..]));
      if q.None? then None
      else
        var tail := Segments(TrimStart(q.value.1));
        if tail.None? then None else Some(q.value.0 + tail.value)
  }

  function Parsed(input: string): Option<StaticInclude> {
    var text := StripParens(Trim(input));
    var literal := QuotedPath(text);
    if literal.Some? then Some(Literal(literal.value))
    else
      var base := Base(text);
      if base.None? then None
      else
        var path := Segments(Trim(base.value.1));
        if path.None? then None else Some(DirectoryRelative(base.value.0, path.value))
  }

  method ParseSegments(input: string) returns (r: Option<string>)
    ensures r == Segments(input)
  {
    var path := "";
    var remainder := input;
    ghost var whole := Segments(input);
    assert whole.Some? ==> "" + whole.value == whole.value;
    while remainder != ""
      invariant Segments(remainder).None? ==> whole.None?
      invariant Segments(remainder).Some? ==> whole == Some(path + Segments(remainder).value)
      decreases |remainder|
    {
      if remainder[0] != '.' {
        return None;
      }
      remainder := TrimStart(remainder[1..]);
      var q := TakeQuoted(remainder);
      if q.None? {
        return None;
      }
      ghost var tail := Segments(TrimStart(q.value.1));
      assert tail.Some? ==> path + (q.value.0 + tail.value) == path + q.value.0 + tail.value;
      path := path + q.value.0;
      remainder := TrimStart(q.value.1);
    }
    assert path + "" == path;
    return Some(path);
  }

  method ParseStaticInclude(input: string) returns (r: Option<StaticInclude>)
    ensures r == Parsed(input)
  {
    var text := StripWrappingParentheses(Trim(input));
    var literal := TakeQuoted(text);
    if literal.Some? && Trim(literal.value.1) == "" {
      return Some(Literal(literal.value.0));
    }
    var base := DirectoryBase(text);
    if base.None? {
      return None;
    }
    var path := ParseSegments(Trim(base.value.1));
    if path.None? {
      return None;
    }
    return Some(DirectoryRelative(base.value.0, path.value));
  }

  // ---------- Printing and reading back ----------

  /** One joined string: a dot between white space, and what stands between its quotes. */
  datatype Segment = Segment(before: string, after: string, quote: char, raw: string)

  predicate WellSpaced(s: Segment) {
    Blank(s.before) && Blank(s.after) && Acceptable(s.raw, s.quote)
  }

  predicate AllWellSpaced(segments: seq<Segment>) {
    forall s :: s in segments ==> WellSpaced(s)
  }

  function PrintSegment(s: Segment): string {
    s.before + "." + s.after + Enquoted(s.raw, s.quote)
  }

  function PrintSegments(segments: seq<Segment>): string {
    if segments == [] then "" else PrintSegment(segments[0]) + PrintSegments(segments[1..])
  }

  function Concat(segments: seq<Segment>): string {
    if segments == [] then "" else Unescape(segments[0].raw, segments[0].quote) + Concat(segments[1..])
  }

  function PrintBase(parents: nat): string {
    if parents == 0 then DIR else DIRNAME + PrintBase(parents - 1) + ")"
  }

  datatype Layer = Layer(before: string, after: string)

  /** Wrapping parentheses with arbitrary white space inside each pair. */
  function Wrap(layers: seq<Layer>, inner: string): string {
    if layers == [] then inner
    else "(" + layers[0].before + Wrap(layers[1..], inner) + layers[0].after + ")"
  }

  predicate AllBlank(layers: seq<Layer>) {
    forall l :: l in layers ==> Blank(l.before) && Blank(l.after)
  }

  lemma EnquotedIsTight(raw: string, quote: char)
    requires IsQuote(quote)
    ensures Tight(Enquoted(raw, quote)) && Enquoted(raw, quote)[0] == quote
    ensures IsQuote(Enquoted(raw, quote)[|Enquoted(raw, quote)| - 1])
  {
  }

  lemma SegmentReads(s: Segment, rest: string)
    requires WellSpaced(s)
    ensures var text := TrimStart(PrintSegment(s) + rest);
            && text != "" && text[0] == '.'
            && Quoted(TrimStart(text[1..])) == Some((Unescape(s.raw, s.quote), rest))
  {
    hide Quoted, Unescape;
    var quoted := Enquoted(s.raw, s.quote);
    var dotted := "." + (s.after + (quoted + rest));
    assert PrintSegment(s) + rest == s.before + dotted;
    TrimStartDrops(s.before, dotted);
    EnquotedIsTight(s.raw, s.quote);
    assert dotted[1..] == s.after + (quoted + rest);
    assert (quoted + rest)[0] == s.quote;
    TrimStartDrops(s.after, quoted + rest);
    QuotedReads(quoted + rest, s.quote, s.raw, Unescape(s.raw, s.quote), rest);
  }

  lemma {:induction false} SegmentsRoundTrip(segments: seq<Segment>)
    requires AllWellSpaced(segments)
    ensures Segments(TrimStart(PrintSegments(segments))) == Some(Concat(segments))
  {
    hide Quoted, PrintSegment, WellSpaced;
    if segments != [] {
      assert WellSpaced(segments[0]);
      SegmentsRoundTrip(segments[1..]);
      SegmentReads(segments[0], PrintSegments(segments[1..]));
    }
  }

  lemma {:induction false} SegmentsEndTight(segments: seq<Segment>)
    requires segments != [] && AllWellSpaced(segments)
    ensures var p := PrintSegments(segments); p != "" && IsQuote(p[|p| - 1])
  {
    assert WellSpaced(segments[0]);
    if |segments| > 1 {
      SegmentsEndTight(segments[1..]);
    } else {
      assert PrintSegments(segments[1..]) == "";
      assert PrintSegments(segments) == PrintSegment(segments[0]);
    }
  }

  lemma {:induction false} StripClosesRoundTrip(n: nat, rest: string)
    ensures StripCloses(seq(n, _ => ')') + rest, n) == Some(rest)
  {
    if n > 0 {
      assert (seq(n, _ => ')') + rest)[1..] == seq(n - 1, _ => ')') + rest;
      StripClosesRoundTrip(n - 1, rest);
    } else {
      assert seq(0, _ => ')') + rest == rest;
    }
  }

  lemma {:induction false} PrintBaseShape(parents: nat, rest: string)
    ensures Dirnames(PrintBase(parents) + rest) == (parents, DIR + (seq(parents, _ => ')') + rest))
  {
    if parents == 0 {
      assert PrintBase(0) + rest == DIR + (seq(0, _ => ')') + rest);
      assert (DIR + rest)[0] == '_';
    } else {
      var text := PrintBase(parents) + rest;
      assert text == DIRNAME + (PrintBase(parents - 1) + (")" + rest));
      assert text[|DIRNAME|..] == PrintBase(parents - 1) + (")" + rest);
      PrintBaseShape(parents - 1, ")" + rest);
      assert seq(parents - 1, _ => ')') + (")" + rest) == seq(parents, _ => ')') + rest;
    }
  }

  lemma BaseRoundTrip(parents: nat, rest: string)
    ensures Base(PrintBase(parents) + rest) == Some((parents, rest))
  {
    var text := PrintBase(parents) + rest;
    if parents == 0 {
      assert text[|DIR|..] == rest;
    } else {
      assert text == DIRNAME + (PrintBase(parents - 1) + (")" + rest));
      assert text[0] == 'd';
      PrintBaseShape(parents, rest);
      var inner := DIR + (seq(parents, _ => ')') + rest);
      assert inner[|DIR|..] == seq(parents, _ => ')') + rest;
      StripClosesRoundTrip(parents, rest);
    }
  }

  /** Parentheses come off one pair at a time and nothing else is lost. */
  lemma {:induction false} WrapStrips(layers: seq<Layer>, inner: string)
    requires forall l :: l in layers ==> Blank(l.before) && Blank(l.after)
    requires Tight(inner) && inner[0] != '('
    ensures Tight(Wrap(layers, inner)) && StripParens(Wrap(layers, inner)) == inner
  {
    if layers != [] {
      var l, rest := layers[0], Wrap(layers[1..], inner);
      WrapStrips(layers[1..], inner);
      var text := Wrap(layers, inner);
      assert text[1..|text| - 1] == l.before + rest + l.after;
      TrimDrops(l.before, rest, l.after);
    }
  }

  lemma PrintBaseTight(parents: nat)
    ensures Tight(PrintBase(parents)) && !IsQuote(PrintBase(parents)[0]) && PrintBase(parents)[0] != '('
  {
    if parents > 0 {
      assert PrintBase(parents)[0] == 'd';
    }
  }

  lemma TrimLeavesSegments(segments: seq<Segment>)
    requires AllWellSpaced(segments)
    ensures Trim(PrintSegments(segments)) == TrimStart(PrintSegments(segments))
  {
    var text := PrintSegments(segments);
    if segments != [] {
      SegmentsEndTight(segments);
      TrimStartKeepsEnd(text);
    }
  }

  lemma {:induction false} TrimStartKeepsEnd(s: string)
    requires s != "" && !IsSpace(s[|s| - 1])
    ensures TrimStart(s) != "" && TrimStart(s)[|TrimStart(s)| - 1] == s[|s| - 1]
  {
    if IsSpace(s[0]) {
      TrimStartKeepsEnd(s[1..]);
    }
  }

  // ---------- What is read ----------

  /** A static include: one quoted path, or quoted paths joined to a directory so many levels up. */
  datatype Form =
    | Path(quote: char, raw: string)
    | Joined(parents: nat, segments: seq<Segment>)

  predicate WellWritten(f: Form) {
    match f
    case Path(quote, raw) => Acceptable(raw, quote)
    case Joined(_, segments) => AllWellSpaced(segments)
  }

  function PrintForm(f: Form): string {
    match f
    case Path(quote, raw) => Enquoted(raw, quote)
    case Joined(parents, segments) => PrintBase(parents) + PrintSegments(segments)
  }

  function Meaning(f: Form): StaticInclude {
    match f
    case Path(quote, raw) => Literal(Unescape(raw, quote))
    case Joined(parents, segments) => DirectoryRelative(parents, Concat(segments))
  }

  /** The form in any wrapping parentheses, with white space around and inside each pair. */
  ghost predicate Writes(input: string, f: Form, layers: seq<Layer>, before: string, after: string) {
    && WellWritten(f) && AllBlank(layers) && Blank(before) && Blank(after)
    && input == before + Wrap(layers, PrintForm(f)) + after
  }

  lemma FormIsTight(f: Form)
    requires WellWritten(f)
    ensures Tight(PrintForm(f)) && PrintForm(f)[0] != '('
  {
    match f
    case Path(quote, raw) => EnquotedIsTight(raw, quote);
    case Joined(parents, segments) =>
      PrintBaseTight(parents);
      if segments != [] {
        SegmentsEndTight(segments);
      } else {
        assert PrintForm(f) == PrintBase(parents);
      }
  }

  /** Any form, any white space and wrapping parentheses: writing is inverted. */
  lemma IncludeRoundTrip(input: string, f: Form, layers: seq<Layer>, before: string, after: string)
    requires Writes(input, f, layers, before, after)
    ensures Parsed(input) == Some(Meaning(f))
  {
    var inner := PrintForm(f);
    FormIsTight(f);
    WrapStrips(layers, inner);
    TrimDrops(before, Wrap(layers, inner), after);
    match f
    case Path(quote, raw) =>
      assert inner + "" == inner;
      QuotedReads(inner, quote, raw, Unescape(raw, quote), "");
    case Joined(parents, segments) =>
      PrintBaseTight(parents);
      BaseRoundTrip(parents, PrintSegments(segments));
      SegmentsRoundTrip(segments);
      TrimLeavesSegments(segments);
  }

  lemma {:induction false} TrimStartSplits(s: string) returns (blank: string)
    ensures Blank(blank) && s == blank + TrimStart(s)
    ensures TrimStart(s) != "" ==> !IsSpace(TrimStart(s)[0])
  {
    blank := "";
    if s != "" && IsSpace(s[0]) {
      var more := TrimStartSplits(s[1..]);
      blank := [s[0]] + more;
      assert s == [s[0]] + s[1..];
    }
  }

  lemma {:induction false} TrimEndSplits(s: string) returns (blank: string)
    ensures Blank(blank) && s == TrimEnd(s) + blank
    ensures TrimEnd(s) != "" ==> !IsSpace(TrimEnd(s)[|TrimEnd(s)| - 1])
  {
    blank := "";
    if s != "" && IsSpace(s[|s| - 1]) {
      var more := TrimEndSplits(s[..|s| - 1]);
      blank := more + [s[|s| - 1]];
      assert s == s[..|s| - 1] + [s[|s| - 1]];
    }
  }

  /** Trimming takes white space off both ends and leaves a tight text or none. */
  lemma TrimSplits(s: string) returns (before: string, after: string)
    ensures Blank(before) && Blank(after) && s == before + Trim(s) + after
    ensures Trim(s) == "" || Tight(Trim(s))
  {
    before := TrimStartSplits(s);
    after := TrimEndSplits(TrimStart(s));
    assert Trim(s) != "" ==> Trim(s)[0] == TrimStart(s)[0];
  }

  lemma WrapOneMore(l: Layer, layers: seq<Layer>, inner: string)
    ensures Wrap([l] + layers, inner) == "(" + (l.before + Wrap(layers, inner) + l.after) + ")"
  {
    assert ([l] + layers)[1..] == layers;
  }

  lemma {:induction false} StripSplits(text: string) returns (layers: seq<Layer>)
    requires text == "" || Tight(text)
    ensures AllBlank(layers) && text == Wrap(layers, StripParens(text))
    ensures StripParens(text) == "" || Tight(StripParens(text))
    decreases |text|
  {
    hide Trim, Wrap, Tight, Blank;
    layers := [];
    WrapNothing(StripParens(text));
    if |text| >= 2 && text[0] == '(' && text[|text| - 1] == ')' {
      var inside := text[1..|text| - 1];
      var before, after := TrimSplits(inside);
      var more := StripSplits(Trim(inside));
      layers := [Layer(before, after)] + more;
      WrapOneMore(Layer(before, after), more, StripParens(text));
      assert text == "(" + inside + ")";
    }
  }

  lemma WrapNothing(inner: string)
    ensures Wrap([], inner) == inner
  {
  }

  lemma {:induction false} DirnamesSplits(text: string)
    ensures var (n, rest) := Dirnames(text); text == Openings(n) + rest
  {
    if DIRNAME <= text {
      DirnamesSplits(text[|DIRNAME|..]);
      assert text == DIRNAME + text[|DIRNAME|..];
    }
  }

  function Openings(n: nat): string {
    if n == 0 then "" else DIRNAME + Openings(n - 1)
  }

  function Closings(n: nat): string {
    if n == 0 then "" else ")" + Closings(n - 1)
  }

  lemma {:induction false} ClosesSplits(text: string, n: nat)
    requires StripCloses(text, n).Some?
    ensures text == Closings(n) + StripCloses(text, n).value
  {
    if n > 0 {
      ClosesSplits(text[1..], n - 1);
      assert text == ")" + text[1..];
    }
  }

  lemma {:induction false} BaseIsNested(n: nat)
    ensures PrintBase(n) == Openings(n) + DIR + Closings(n)
  {
    if n > 0 {
      BaseIsNested(n - 1);
      ClosingsCommute(n - 1);
    }
  }

  lemma {:induction false} ClosingsCommute(n: nat)
    ensures ")" + Closings(n) == Closings(n) + ")"
  {
    if n > 0 {
      ClosingsCommute(n - 1);
    }
  }

  lemma BaseSplits(text: string)
    requires Base(text).Some?
    ensures text == PrintBase(Base(text).value.0) + Base(text).value.1
  {
    if DIR <= text {
      assert text == DIR + text[|DIR|..];
    } else {
      var (parents, inner) := Dirnames(text);
      DirnamesSplits(text);
      ClosesSplits(inner[|DIR|..], parents);
      BaseIsNested(parents);
      assert inner == DIR + inner[|DIR|..];
    }
  }

  /** Joined strings come apart into their segments, up to white space at the end. */
  lemma {:induction false} SegmentsSplit(text: string) returns (segments: seq<Segment>, tail: string)
    requires Segments(text).Some?
    ensures AllWellSpaced(segments) && Blank(tail) && text == PrintSegments(segments) + tail
    ensures Concat(segments) == Segments(text).value
    decreases |text|
  {
    hide Quoted, Unescape, Acceptable, Blank, IsSpace, TrimStart, PrintSegments, Concat;
    segments, tail := [], "";
    NoSegments();
    if text != "" {
      var after := TrimStartSplits(text[1..]);
      var trimmed := TrimStart(text[1..]);
      var (value, rest) := Quoted(trimmed).value;
      QuotedExactly(trimmed, value, rest);
      var quote, raw :| Reads(trimmed, quote, raw, value, rest);
      QuotedShorter(trimmed);
      var before := TrimStartSplits(rest);
      var later, end := SegmentsSplit(TrimStart(rest));
      segments, tail := OneMoreSegment(text, Segment("", after, quote, raw), before, later, end);
    }
  }

  lemma BlanksJoin(a: string, b: string)
    requires Blank(a) && Blank(b)
    ensures Blank(a + b)
  {
  }

  lemma NoSegments()
    ensures PrintSegments([]) == "" && Concat([]) == "" && Blank("")
  {
  }

  lemma OneMoreSegment(text: string, first: Segment, before: string, later: seq<Segment>, end: string)
    returns (segments: seq<Segment>, tail: string)
    requires WellSpaced(first) && AllWellSpaced(later) && Blank(before) && Blank(end) && first.before == ""
    requires text == "." + (first.after + (Enquoted(first.raw, first.quote) + (before + (PrintSegments(later) + end))))
    ensures AllWellSpaced(segments) && Blank(tail) && text == PrintSegments(segments) + tail
    ensures Concat(segments) == Unescape(first.raw, first.quote) + Concat(later)
  {
    hide Blank, Acceptable, Unescape;
    assert text == PrintSegment(first) + (before + PrintSegments(later) + end);
    if later == [] {
      segments, tail := [first], before + end;
      BlanksJoin(before, end);
      assert PrintSegments(segments) == PrintSegment(first) + PrintSegments([]) && segments[1..] == [];
    } else {
      segments, tail := [first] + Spaced(before, later), end;
      SpacedPrints(before, later);
      assert segments[1..] == Spaced(before, later);
    }
  }

  lemma QuotedShorter(text: string)
    requires Quoted(text).Some?
    ensures |Quoted(text).value.1| < |text|
  {
  }

  /** White space in front of the first segment. */
  function Spaced(blank: string, segments: seq<Segment>): seq<Segment>
    requires segments != []
  {
    [segments[0].(before := blank + segments[0].before)] + segments[1..]
  }

  lemma SpacedPrints(blank: string, segments: seq<Segment>)
    requires segments != [] && AllWellSpaced(segments) && Blank(blank)
    ensures AllWellSpaced(Spaced(blank, segments)) && Concat(Spaced(blank, segments)) == Concat(segments)
    ensures PrintSegments(Spaced(blank, segments)) == blank + PrintSegments(segments)
  {
    hide Acceptable, Unescape;
    var spaced := Spaced(blank, segments);
    assert spaced[1..] == segments[1..];
    assert WellSpaced(segments[0]);
    assert PrintSegment(spaced[0]) == blank + PrintSegment(segments[0]);
    forall s | s in spaced
      ensures WellSpaced(s)
    {
      assert s == spaced[0] || s in segments[1..];
    }
  }

  lemma TightEndsThere(text: string, front: string, tail: string)
    requires text == front + tail && Blank(tail) && Tight(text)
    ensures tail == ""
  {
  }

  lemma JoinedForm(text: string, parents: nat, rest: string, before: string, segments: seq<Segment>, tail: string,
                   after: string)
    returns (f: Form)
    requires Tight(text) && text == PrintBase(parents) + rest
    requires rest == before + (PrintSegments(segments) + tail) + after
    requires AllWellSpaced(segments) && Blank(before) && Blank(tail) && Blank(after)
    ensures WellWritten(f) && text == PrintForm(f) && Meaning(f) == DirectoryRelative(parents, Concat(segments))
  {
    hide Acceptable, Unescape, Blank, Tight;
    BlanksJoin(tail, after);
    if segments == [] {
      BlanksJoin(before, tail + after);
      assert rest == before + (tail + after);
      TightEndsThere(text, PrintBase(parents), rest);
      f := Joined(parents, []);
    } else {
      var spaced := before + PrintSegments(segments);
      assert text == (PrintBase(parents) + spaced) + (tail + after);
      TightEndsThere(text, PrintBase(parents) + spaced, tail + after);
      SpacedPrints(before, segments);
      f := Joined(parents, Spaced(before, segments));
    }
  }

  /** The stripped text is that of a form. */
  lemma StrippedIsForm(text: string) returns (f: Form)
    requires Tight(text)
    requires QuotedPath(text).Some? || (Base(text).Some? && Segments(Trim(Base(text).value.1)).Some?)
    ensures WellWritten(f) && text == PrintForm(f)
    ensures QuotedPath(text).Some? ==> Meaning(f) == Literal(QuotedPath(text).value)
    ensures QuotedPath(text).None? ==>
              Meaning(f) == DirectoryRelative(Base(text).value.0, Segments(Trim(Base(text).value.1)).value)
  {
    hide Quoted, Unescape, Acceptable, Base, Tight, Blank, Trim, IsSpace;
    if QuotedPath(text).Some? {
      var (value, rest) := Quoted(text).value;
      QuotedExactly(text, value, rest);
      var quote, raw :| Reads(text, quote, raw, value, rest);
      var before, after := TrimSplits(rest);
      BlanksJoin(before, after);
      assert before + "" + after == before + after;
      TightEndsThere(text, Enquoted(raw, quote), rest);
      f := Path(quote, raw);
    } else {
      var (parents, rest) := Base(text).value;
      BaseSplits(text);
      var before, after := TrimSplits(rest);
      var segments, tail := SegmentsSplit(Trim(rest));
      f := JoinedForm(text, parents, rest, before, segments, tail, after);
    }
  }

  lemma NothingIsRead()
    ensures QuotedPath("").None? && Base("").None?
  {
    assert Dirnames("") == (0, "");
  }

  /** The parser answers exactly the inputs that write a form, and answers what the form means. */
  lemma IncludeExactly(input: string, r: StaticInclude)
    ensures Parsed(input) == Some(r)
            <==> exists f, layers, before, after :: Writes(input, f, layers, before, after) && Meaning(f) == r
  {
    hide Wrap, PrintForm, WellWritten, Meaning, QuotedPath, Base, Segments, StripParens, Trim, Tight, Blank;
    if Parsed(input) == Some(r) {
      var before, after := TrimSplits(input);
      var layers := StripSplits(Trim(input));
      var text := StripParens(Trim(input));
      NothingIsRead();
      var f := StrippedIsForm(text);
      assert Writes(input, f, layers, before, after);
    }
    if f, layers, before, after :| Writes(input, f, layers, before, after) && Meaning(f) == r {
      IncludeRoundTrip(input, f, layers, before, after);
    }
  }

  /**
   * Any path can be written between single quotes, and one that does not look like interpolation between double ones.
   */
  lemma EveryPathCanBeWritten(s: string, quote: char)
    requires Printable(s, quote)
    ensures Acceptable(Escape(s, quote), quote) && Unescape(Escape(s, quote), quote) == s
  {
    EscapeEncloses(s, quote);
    assert '$' != quote && '{' != quote;
  }
}
