/** The templates of a step's with: map: parsing, evaluation, and remapping of a payload. */
module WithTemplate {
  import opened Base

  datatype Segment = Literal(text: string) | Path(path: string)

  datatype TemplateError = UnexpectedClose | Unclosed | EmptyPath | Nested

  datatype Parsed = Ok(segments: seq<Segment>) | Err(error: TemplateError)

  predicate IsBrace(c: char) {
    c == '{' || c == '}'
  }

  predicate BraceFree(s: string) {
    forall i :: 0 <= i < |s| ==> !IsBrace(s[i])
  }

  /** strings.IndexByte. */
  function Index(s: string, c: char): (i: int)
    ensures -1 <= i < |s|
  {
    if s == "" then -1
    else if s[0] == c then 0
    else var i := Index(s[1..], c); if i == -1 then -1 else i + 1
  }

  /** The length of the text in front of the first brace, and in front of the first closing one. */
  function Plain(s: string): (n: nat)
    ensures n <= |s| && (n < |s| ==> IsBrace(s[n]))
  {
    if s == "" || IsBrace(s[0]) then 0 else 1 + Plain(s[1..])
  }

  function UpToClose(s: string): (n: nat)
    ensures n <= |s| && (n < |s| ==> s[n] == '}')
  {
    if s == "" || s[0] == '}' then 0 else 1 + UpToClose(s[1..])
  }

  lemma {:induction false} IndexOfBraces(s: string)
    ensures var n, start, end := Plain(s), Index(s, '{'), Index(s, '}');
            if n == |s| then start == -1 && end == -1
            else if s[n] == '{' then start == n && (end == -1 || end > start)
            else end == n && (start == -1 || start > end)
  {
    if s != "" && !IsBrace(s[0]) {
      IndexOfBraces(s[1..]);
    }
  }

  lemma {:induction false} IndexOfClose(s: string)
    ensures Index(s, '}') == if UpToClose(s) == |s| then -1 else UpToClose(s)
  {
    if s != "" && s[0] != '}' {
      IndexOfClose(s[1..]);
    }
  }

  /** What the front of a template is: brace-free text and a first path with the rest behind it,
      brace-free text up to the end, or an error. */
  datatype Front = Piece(text: string, path: string, rest: string) | Tail(text: string) | Bad(error: TemplateError)

  function Cut(s: string): (r: Front)
    ensures r.Piece? ==> |r.rest| < |s|
  {
    var n := Plain(s);
    if n == |s| then Tail(s)
    else if s[n] == '}' then Bad(UnexpectedClose)
    else
      var m := n + 1 + UpToClose(s[n + 1..]);
      if m == |s| then Bad(Unclosed) else Piece(s[..n], s[n + 1..m], s[m + 1..])
  }

  /** The text "text{path}rest". */
  function Join(text: string, path: string, rest: string): string {
    text + "{" + path + "}" + rest
  }

  lemma {:induction false} PlainIsFree(s: string)
    ensures BraceFree(s[..Plain(s)])
  {
    if s != "" && !IsBrace(s[0]) {
      PlainIsFree(s[1..]);
      assert s[..Plain(s)] == [s[0]] + s[1..][..Plain(s[1..])];
    }
  }

  lemma {:induction false} PlainBefore(text: string, c: char, rest: string)
    requires BraceFree(text) && IsBrace(c)
    ensures Plain(text + [c] + rest) == |text|
  {
    var s := text + [c] + rest;
    if text != "" {
      assert s[1..] == text[1..] + [c] + rest && s[0] == text[0];
      PlainBefore(text[1..], c, rest);
    }
  }

  lemma {:induction false} PlainWhole(text: string)
    requires BraceFree(text)
    ensures Plain(text) == |text|
  {
    if text != "" {
      PlainWhole(text[1..]);
    }
  }

  lemma {:induction false} UpToCloseBefore(path: string, rest: string)
    requires BraceFree(path)
    ensures UpToClose(path + "}" + rest) == |path|
  {
    var s := path + "}" + rest;
    if path != "" {
      assert s[1..] == path[1..] + "}" + rest && s[0] == path[0];
      UpToCloseBefore(path[1..], rest);
    }
  }

  lemma {:induction false} UpToCloseIsFree(s: string)
    ensures '}' !in s[..UpToClose(s)]
  {
    if s != "" && s[0] != '}' {
      UpToCloseIsFree(s[1..]);
      assert s[..UpToClose(s)] == [s[0]] + s[1..][..UpToClose(s[1..])];
    }
  }

  lemma JoinOf(s: string, a: nat, b: nat)
    requires a < b < |s| && s[a] == '{' && s[b] == '}'
    ensures s == Join(s[..a], s[a + 1..b], s[b + 1..])
  {
    assert s == s[..a] + [s[a]] + s[a + 1..b] + [s[b]] + s[b + 1..];
  }

  lemma CutJoins(s: string)
    requires Cut(s).Piece?
    ensures var Piece(text, path, rest) := Cut(s); s == Join(text, path, rest) && BraceFree(text) && '}' !in path
  {
    var n := Plain(s);
    var m := UpToClose(s[n + 1..]);
    PlainIsFree(s);
    UpToCloseIsFree(s[n + 1..]);
    assert s[n + 1..][..m] == s[n + 1..n + 1 + m] && s[n + 1..][m] == s[n + 1 + m];
    JoinOf(s, n, n + 1 + m);
  }

  function LiteralBefore(text: string): seq<Segment> {
    if text == "" then [] else [Literal(text)]
  }

  function Prepend(segments: seq<Segment>, p: Parsed): Parsed {
    match p case Ok(rest) => Ok(segments + rest) case Err(e) => Err(e)
  }

  /** The rounds of the parsing loop. */
  function ParseRest(s: string): Parsed
    decreases |s|
  {
    if s == "" then Ok([])
    else
      match Cut(s)
      case Bad(e) => Err(e)
      case Tail(text) => Ok([Literal(text)])
      case Piece(text, path, rest) =>
        if Trim(path) == "" then Err(EmptyPath)
        else if '{' in Trim(path) then Err(Nested)
        else Prepend(LiteralBefore(text) + [Path(Trim(path))], ParseRest(rest))
  }

  function Parse(s: string): Parsed {
    var p := ParseRest(s);
    if p == Ok([]) then Ok([Literal("")]) else p
  }

  lemma CloseFrom(s: string, start: nat)
    requires start < |s| && s[start] == '{'
    ensures var m := start + 1 + UpToClose(s[start + 1..]);
            Index(s[start..], '}') == if m == |s| then -1 else m - start
  {
    var t := s[start..];
    assert t[0] == '{' && t[1..] == s[start + 1..];
    IndexOfClose(t[1..]);
  }

  /** The same front, found with byte indices. */
  lemma CutAt(s: string, start: int, end: int)
    requires start == Index(s, '{') && end == Index(s, '}')
    ensures if end >= 0 && (start == -1 || end < start) then Cut(s) == Bad(UnexpectedClose)
            else if start == -1 then Cut(s) == Tail(s)
            else var length := Index(s[start..], '}');
                 if length == -1 then Cut(s) == Bad(Unclosed)
                 else length > 0 && Cut(s) == Piece(s[..start], s[start + 1..start + length], s[start + length + 1..])
  {
    IndexOfBraces(s);
    if start >= 0 && Plain(s) == start {
      CloseFrom(s, start);
    }
  }

  lemma PrependTwice(a: seq<Segment>, b: seq<Segment>, p: Parsed)
    ensures Prepend(a, Prepend(b, p)) == Prepend(a + b, p)
  {
    if p.Ok? {
      assert a + (b + p.segments) == a + b + p.segments;
    }
  }

  /** The index arithmetic of one round. */
  method FindFront(s: string) returns (front: Front)
    ensures front == Cut(s)
  {
    var start, end := Index(s, '{'), Index(s, '}');
    CutAt(s, start, end);
    if end >= 0 && (start == -1 || end < start) {
      return Bad(UnexpectedClose);
    }
    if start == -1 {
      return Tail(s);
    }
    end := Index(s[start..], '}');
    if end == -1 {
      return Bad(Unclosed);
    }
    end := end + start;
    front := Piece(s[..start], s[start + 1..end], s[end + 1..]);
  }

  method ParseWithTemplate(template: string) returns (r: Parsed)
    ensures r == Parse(template)
  {
    var segments: seq<Segment>, rest := [], template;
    while |rest| > 0
      invariant ParseRest(template) == Prepend(segments, ParseRest(rest))
      decreases |rest|
    {
      var front := FindFront(rest);
      match front {
        case Bad(e) => return Err(e);
        case Tail(text) => return Ok(segments + [Literal(text)]);
        case Piece(text, path, after) =>
          ghost var before := segments;
          if |text| > 0 {
            segments := segments + [Literal(text)];
          }
          if Trim(path) == "" {
            return Err(EmptyPath);
          }
          if '{' in Trim(path) {
            return Err(Nested);
          }
          segments := segments + [Path(Trim(path))];
          assert segments == before + (LiteralBefore(text) + [Path(Trim(path))]);
          PrependTwice(before, LiteralBefore(text) + [Path(Trim(path))], ParseRest(after));
          rest := after;
      }
    }
    assert Prepend(segments, Ok([])) == Ok(segments);
    if |segments| == 0 {
      return Ok([Literal("")]);
    }
    r := Ok(segments);
  }

  // ---------------------------------------------------------------- printing

  function Print(segments: seq<Segment>): string {
    if segments == [] then ""
    else (match segments[0] case Literal(t) => t case Path(p) => "{" + p + "}") + Print(segments[1..])
  }

  predicate GoodSegment(s: Segment) {
    match s case Literal(t) => t != "" && BraceFree(t) case Path(p) => Trim(p) != "" && BraceFree(p)
  }

  /** Segments as a template may spell them, never two literals in a row; paths may be padded. */
  predicate Spelling(segments: seq<Segment>) {
    segments == [] ||
    (GoodSegment(segments[0]) && Spelling(segments[1..]) &&
     (|segments| > 1 ==> segments[0].Path? || segments[1].Path?))
  }

  predicate Canonical(segments: seq<Segment>) {
    Spelling(segments) && forall i :: 0 <= i < |segments| && segments[i].Path? ==> Trimmed(segments[i].path)
  }

  function CleanOne(s: Segment): Segment {
    match s case Literal(t) => s case Path(p) => Path(Trim(p))
  }

  function Clean(segments: seq<Segment>): seq<Segment> {
    if segments == [] then []
    else [CleanOne(segments[0])] + Clean(segments[1..])
  }

  lemma JoinParts(text: string, path: string, rest: string)
    ensures var s, n, m := Join(text, path, rest), |text|, |text| + 1 + |path|;
            |s| == m + 1 + |rest| && s[n] == '{' && s[m] == '}' && s[..n] == text && s[n + 1..m] == path &&
            s[m + 1..] == rest && s == text + ['{'] + (path + "}" + rest) && s[n + 1..] == path + "}" + rest
  {
  }

  lemma CutIs(text: string, path: string, rest: string)
    requires BraceFree(text) && BraceFree(path)
    ensures Cut(Join(text, path, rest)) == Piece(text, path, rest)
  {
    var s := Join(text, path, rest);
    JoinParts(text, path, rest);
    PlainBefore(text, '{', path + "}" + rest);
    UpToCloseBefore(path, rest);
    assert Plain(s) == |text| && UpToClose(s[|text| + 1..]) == |path|;
  }

  /** One round on a literal, possibly empty, followed by a path in braces. */
  lemma Round(text: string, path: string, rest: string)
    requires BraceFree(text) && BraceFree(path) && Trim(path) != ""
    ensures ParseRest(Join(text, path, rest)) ==
            Prepend(LiteralBefore(text) + [Path(Trim(path))], ParseRest(rest))
  {
    CutIs(text, path, rest);
    TrimIsTrimmed(path);
  }

  lemma Front1(s: Segment, rest: seq<Segment>)
    ensures Print([s] + rest) == Print([s]) + Print(rest)
    ensures Clean([s] + rest) == Clean([s]) + Clean(rest)
    ensures GoodSegment(s) && Spelling(rest) && (s.Path? || rest == [] || rest[0].Path?) ==> Spelling([s] + rest)
  {
    assert ([s] + rest)[1..] == rest;
  }

  lemma PrintPiece(text: string, path: string, rest: seq<Segment>)
    ensures var all := LiteralBefore(text) + ([Path(path)] + rest);
            Print(all) == Join(text, path, Print(rest)) &&
            Clean(all) == LiteralBefore(text) + [Path(Trim(path))] + Clean(rest)
  {
    var tail := [Path(path)] + rest;
    Front1(Path(path), rest);
    assert Print([Path(path)]) == "{" + path + "}" && Clean([Path(path)]) == [Path(Trim(path))];
    if text == "" {
      assert [] + tail == tail;
    } else {
      Front1(Literal(text), tail);
    }
    assert text + ("{" + path + "}" + Print(rest)) == Join(text, path, Print(rest));
  }

  /** A spelling is empty, one literal, or a piece in front of a spelling. */
  lemma SpellingCases(raw: seq<Segment>) returns (text: string, path: string, rest: seq<Segment>)
    requires Spelling(raw) && raw != []
    ensures (|raw| == 1 && raw[0].Literal?) ||
            (raw == LiteralBefore(text) + ([Path(path)] + rest) && |rest| < |raw| && Spelling(rest) &&
             BraceFree(text) && GoodSegment(Path(path)))
  {
    text, path, rest := "", "", [];
    if raw[0].Path? {
      path, rest := raw[0].path, raw[1..];
    } else if |raw| > 1 {
      assert raw[1..][0] == raw[1];
      text, path, rest := raw[0].text, raw[1].path, raw[1..][1..];
    }
  }

  /** Whatever spelling is printed, parsing gives back its segments without the padding. */
  lemma {:induction false} ParsePrint(raw: seq<Segment>)
    requires Spelling(raw)
    ensures ParseRest(Print(raw)) == Ok(Clean(raw))
    decreases |raw|
  {
    if raw != [] {
      var text, path, rest := SpellingCases(raw);
      if |raw| == 1 && raw[0].Literal? {
        PlainWhole(raw[0].text);
        assert Print(raw) == raw[0].text;
      } else {
        ParsePrint(rest);
        PrintPiece(text, path, rest);
        Round(text, path, Print(rest));
      }
    }
  }

  lemma CleanGood(s: Segment)
    requires GoodSegment(s)
    ensures GoodSegment(CleanOne(s))
    ensures s.Path? ==> Trimmed(CleanOne(s).path) && (Trimmed(s.path) ==> CleanOne(s) == s)
  {
    if s.Path? {
      TrimIsTrimmed(s.path);
      TrimIsTrimmed(Trim(s.path));
      forall i | 0 <= i < |Trim(s.path)| ensures !IsBrace(Trim(s.path)[i]) {
        assert Trim(s.path)[i] in s.path;
      }
    }
  }

  lemma {:induction false} CleanIsCanonical(raw: seq<Segment>)
    requires Spelling(raw)
    ensures |Clean(raw)| == |raw| && (raw != [] ==> Clean(raw)[0].Path? == raw[0].Path?)
    ensures Canonical(Clean(raw)) && (Canonical(raw) ==> Clean(raw) == raw)
  {
    if raw != [] {
      CleanIsCanonical(raw[1..]);
      CleanGood(raw[0]);
      Front1(CleanOne(raw[0]), Clean(raw[1..]));
      assert Clean(raw) == [CleanOne(raw[0])] + Clean(raw[1..]);
      if Canonical(raw) {
        assert forall i :: 0 <= i < |raw[1..]| ==> raw[1..][i] == raw[i + 1];
        assert raw == [raw[0]] + raw[1..];
      }
    }
  }

  /** The spelling of an accepted template. */
  function Spell(s: string): seq<Segment>
    decreases |s|
  {
    if s == "" then []
    else
      match Cut(s)
      case Bad(_) => []
      case Tail(text) => [Literal(text)]
      case Piece(text, path, rest) => LiteralBefore(text) + ([Path(path)] + Spell(rest))
  }

  lemma {:induction false} SpellPrints(s: string)
    requires ParseRest(s).Ok?
    ensures Spelling(Spell(s)) && Print(Spell(s)) == s
    decreases |s|
  {
    if s != "" {
      var c := Cut(s);
      if c.Tail? {
        PlainIsFree(s);
        assert s[..|s|] == s && Print([Literal(s)]) == s + "";
      } else {
        SpellPrints(c.rest);
        InnerOpen(c.path);
        CutJoins(s);
        PieceSpelling(c.text, c.path, Spell(c.rest));
        PrintPiece(c.text, c.path, Spell(c.rest));
      }
    }
  }

  lemma PieceSpelling(text: string, path: string, rest: seq<Segment>)
    requires BraceFree(text) && '{' !in path && '}' !in path && Trim(path) != "" && Spelling(rest)
    ensures Spelling(LiteralBefore(text) + ([Path(path)] + rest))
  {
    Front1(Path(path), rest);
    if text == "" {
      assert [] + ([Path(path)] + rest) == [Path(path)] + rest;
    } else {
      Front1(Literal(text), [Path(path)] + rest);
    }
  }

  /** An opening brace survives trimming. */
  lemma InnerOpen(p: string)
    ensures '{' in p ==> '{' in Trim(p)
  {
    TrimLeftStart(p);
    KeepsLeft(p);
    KeepsRight(TrimLeft(p));
  }

  lemma {:induction false} KeepsLeft(p: string)
    ensures '{' in p ==> '{' in TrimLeft(p)
  {
    if p != "" && IsSpace(p[0]) {
      KeepsLeft(p[1..]);
    }
  }

  lemma {:induction false} KeepsRight(p: string)
    ensures '{' in p ==> '{' in TrimRight(p)
  {
    if p != "" && IsSpace(p[|p| - 1]) {
      KeepsRight(p[..|p| - 1]);
    }
  }

  /** A template is accepted exactly when it is the printing of a spelling; its segments are that
      spelling without the padding, or one empty literal for the empty template. */
  lemma AcceptedIff(s: string, segments: seq<Segment>)
    ensures Parse(s) == Ok(segments) <==>
            (if s == "" then segments == [Literal("")]
             else exists raw :: Spelling(raw) && Print(raw) == s && Clean(raw) == segments)
  {
    if s != "" {
      if ParseRest(s).Ok? {
        SpellPrints(s);
        ParsePrint(Spell(s));
        CleanIsCanonical(Spell(s));
      }
      forall raw | Spelling(raw) && Print(raw) == s ensures ParseRest(s) == Ok(Clean(raw)) && Clean(raw) != [] {
        ParsePrint(raw);
        CleanIsCanonical(raw);
      }
    }
  }

  /** Parsing inverts printing on every canonical list, and on the empty literal. */
  lemma ParseInvertsPrint(segments: seq<Segment>)
    requires (Canonical(segments) && segments != []) || segments == [Literal("")]
    ensures Parse(Print(segments)) == Ok(segments)
  {
    if segments != [Literal("")] {
      ParsePrint(segments);
      CleanIsCanonical(segments);
    }
  }

  /** Every accepted template reprints to one with the same segments. */
  lemma ReprintKeepsSegments(s: string)
    requires Parse(s).Ok?
    ensures Parse(Print(Parse(s).segments)) == Parse(s)
  {
    var segments := Parse(s).segments;
    AcceptedIff(s, segments);
    if s != "" {
      var raw :| Spelling(raw) && Print(raw) == s && Clean(raw) == segments;
      CleanIsCanonical(raw);
    }
    ParseInvertsPrint(segments);
  }

  // ---------------------------------------------------------------- evaluation

  /** What templates see of the outside: path resolution over a payload, with the context fixed, and
      the text of a value, which is empty for null. */
  datatype World<!V> = World(resolve: (map<string, V>, string) -> Option<V>, show: V -> string, ofText: string -> V)

  function RenderOne<V>(w: World<V>, payload: map<string, V>, s: Segment): Option<string> {
    match s
    case Literal(t) => Some(t)
    case Path(p) => (match w.resolve(payload, p) case Some(v) => Some(w.show(v)) case None => None)
  }

  function Render<V>(w: World<V>, payload: map<string, V>, segments: seq<Segment>): Option<string> {
    if segments == [] then Some("")
    else
      var head, tail := RenderOne(w, payload, segments[0]), Render(w, payload, segments[1..]);
      if head.Some? && tail.Some? then Some(head.value + tail.value) else None
  }

  /** evalWithTemplate: a template that is one path keeps the type of the value. */
  function Eval<V>(w: World<V>, payload: map<string, V>, template: string): Option<V> {
    match Parse(template)
    case Err(_) => None
    case Ok(segments) =>
      if |segments| == 1 && segments[0].Path? then w.resolve(payload, segments[0].path)
      else
        match Render(w, payload, segments) case None => None case Some(text) => Some(w.ofText(text))
  }

  lemma {:induction false} RenderAppend<V>(w: World<V>, payload: map<string, V>, a: seq<Segment>, b: seq<Segment>)
    ensures var (x, y) := (Render(w, payload, a), Render(w, payload, b));
            Render(w, payload, a + b) == if x.Some? && y.Some? then Some(x.value + y.value) else None
  {
    if a == [] {
      assert a + b == b;
      assert Render(w, payload, b).Some? ==> "" + Render(w, payload, b).value == Render(w, payload, b).value;
    } else {
      RenderAppend(w, payload, a[1..], b);
      assert (a + b)[1..] == a[1..] + b && (a + b)[0] == a[0];
      var h, x, y := RenderOne(w, payload, a[0]), Render(w, payload, a[1..]), Render(w, payload, b);
      if h.Some? && x.Some? && y.Some? {
        assert h.value + (x.value + y.value) == (h.value + x.value) + y.value;
      }
    }
  }

  lemma RenderSingle<V>(w: World<V>, payload: map<string, V>, s: Segment)
    ensures Render(w, payload, [s]) == RenderOne(w, payload, s)
  {
    var one := RenderOne(w, payload, s);
    assert [s][1..] == [] && (one.Some? ==> one.value + "" == one.value);
  }

  method EvalWithTemplate<V>(w: World<V>, payload: map<string, V>, template: string) returns (r: Option<V>)
    ensures r == Eval(w, payload, template)
  {
    var parsed := ParseWithTemplate(template);
    if parsed.Err? {
      return None;
    }
    var segments := parsed.segments;
    if |segments| == 1 && segments[0].Path? {
      return w.resolve(payload, segments[0].path);
    }
    var text, i := "", 0;
    while i < |segments|
      invariant 0 <= i <= |segments|
      invariant Render(w, payload, segments[..i]) == Some(text)
    {
      assert segments[..i + 1] == segments[..i] + [segments[i]] && segments == segments[..i + 1] + segments[i + 1..];
      RenderAppend(w, payload, segments[..i], [segments[i]]);
      RenderAppend(w, payload, segments[..i + 1], segments[i + 1..]);
      RenderSingle(w, payload, segments[i]);
      match segments[i] {
        case Literal(t) => text := text + t;
        case Path(p) =>
          var value := w.resolve(payload, p);
          if value.None? {
            return None;
          }
          text := text + w.show(value.value);
      }
      i := i + 1;
    }
    assert segments[..i] == segments;
    r := Some(w.ofText(text));
  }

  /** A template that spells one path, padded or not, yields the value found there, untouched. */
  lemma SinglePathKeepsValue<V>(w: World<V>, payload: map<string, V>, p: string)
    requires BraceFree(p) && Trim(p) != ""
    ensures Eval(w, payload, "{" + p + "}") == w.resolve(payload, Trim(p))
  {
    Round("", p, "");
    assert "" + "{" + p + "}" + "" == "{" + p + "}";
  }

  datatype Remapped<V> = Payload(payload: map<string, V>) | FailedAt(key: string)

  /** What each template evaluates to on the payload as it came in. */
  function Values<V>(w: World<V>, payload: map<string, V>, with: map<string, string>): map<string, Option<V>> {
    map k | k in with :: Eval(w, payload, with[k])
  }

  /** The payload with the values of some keys written over it. */
  ghost predicate IsRemap<V>(payload: map<string, V>, values: map<string, Option<V>>, keys: set<string>,
                             m: map<string, V>)
    requires keys <= values.Keys
  {
    m.Keys == payload.Keys + keys &&
    forall k :: k in m ==> if k in keys then values[k] == Some(m[k]) else m[k] == payload[k]
  }

  /** The first key of the list whose template does not evaluate. */
  ghost predicate FirstFailure<V>(values: map<string, Option<V>>, keys: seq<string>, key: string)
    requires forall k :: k in keys ==> k in values
  {
    exists i :: 0 <= i < |keys| && keys[i] == key && values[key].None? &&
                forall j :: 0 <= j < i ==> values[keys[j]].Some?
  }

  lemma RemapStep<V>(payload: map<string, V>, values: map<string, Option<V>>, keys: set<string>, m: map<string, V>,
                     k: string, v: V)
    requires keys <= values.Keys && IsRemap(payload, values, keys, m) && k in values && values[k] == Some(v)
    ensures IsRemap(payload, values, keys + {k}, m[k := v])
  {
  }

  lemma RemapSucceeds<V>(payload: map<string, V>, values: map<string, Option<V>>, keys: set<string>, m: map<string, V>)
    requires keys <= values.Keys && IsRemap(payload, values, keys, m)
    ensures forall k :: k in keys ==> values[k].Some?
  {
    assert forall k :: k in keys ==> k in m;
  }

  ghost predicate Covers(done: set<string>, keys: seq<string>, i: nat)
    requires i <= |keys|
  {
    forall j :: 0 <= j < i ==> keys[j] in done
  }

  lemma CoverNext(done: set<string>, keys: seq<string>, i: nat)
    requires i < |keys| && Covers(done, keys, i)
    ensures Covers(done + {keys[i]}, keys, i + 1)
  {
  }

  /** All templates see the payload as it came in, whatever the others have written. In any order of
      the keys the outcome is that one payload, or a failure at the first key that does not evaluate. */
  method ApplyWithRemap<V>(w: World<V>, payload: map<string, V>, with: map<string, string>, keys: seq<string>)
    returns (r: Remapped<V>)
    requires forall k :: k in keys <==> k in with
    ensures r.Payload? ==> IsRemap(payload, Values(w, payload, with), with.Keys, r.payload)
    ensures r.FailedAt? ==> FirstFailure(Values(w, payload, with), keys, r.key)
  {
    var remapped, i := payload, 0;
    ghost var values, done: set<string> := Values(w, payload, with), {};
    while i < |keys|
      invariant 0 <= i <= |keys| && done <= values.Keys
      invariant Covers(done, keys, i)
      invariant IsRemap(payload, values, done, remapped)
    {
      var key := keys[i];
      var value := EvalWithTemplate(w, payload, with[key]);
      if value.None? {
        RemapSucceeds(payload, values, done, remapped);
        return FailedAt(key);
      }
      RemapStep(payload, values, done, remapped, key, value.value);
      CoverNext(done, keys, i);
      remapped, done := remapped[key := value.value], done + {key};
      i := i + 1;
    }
    assert done == with.Keys;
    r := Payload(remapped);
  }

  /** A remapped payload exists exactly when every key evaluates, so the two outcomes exclude each
      other, and it is unique, so neither the order of the keys nor the iteration of a map shows. */
  lemma RemapExistsIff<V>(payload: map<string, V>, values: map<string, Option<V>>)
    ensures (exists m :: IsRemap(payload, values, values.Keys, m)) <==> forall k :: k in values ==> values[k].Some?
  {
    if exists m :: IsRemap(payload, values, values.Keys, m) {
      var m :| IsRemap(payload, values, values.Keys, m);
      RemapSucceeds(payload, values, values.Keys, m);
    }
    if forall k :: k in values ==> values[k].Some? {
      var m := map k | k in payload.Keys + values.Keys :: if k in values then values[k].value else payload[k];
      assert IsRemap(payload, values, values.Keys, m);
    }
  }

  lemma RemapIsUnique<V>(payload: map<string, V>, values: map<string, Option<V>>, a: map<string, V>, b: map<string, V>)
    requires IsRemap(payload, values, values.Keys, a) && IsRemap(payload, values, values.Keys, b)
    ensures a == b
  {
    forall k | k in a ensures a[k] == b[k] {
      assert k in b;
    }
  }

  // ---------------------------------------------------------------- which error is found

  /** The well-formed part in front of the first error: empty, or up to a closing brace. */
  predicate IsFront(raw: seq<Segment>) {
    Spelling(raw) && (raw != [] ==> raw[|raw| - 1].Path?)
  }

  lemma FrontCases(raw: seq<Segment>) returns (text: string, path: string, rest: seq<Segment>)
    requires IsFront(raw) && raw != []
    ensures raw == LiteralBefore(text) + ([Path(path)] + rest) && |rest| < |raw| && IsFront(rest)
    ensures BraceFree(text) && GoodSegment(Path(path))
  {
    text, path, rest := SpellingCases(raw);
    assert rest != [] ==> rest[|rest| - 1] == raw[|raw| - 1];
  }

  /** Whatever follows a well-formed part is parsed on its own. */
  lemma {:induction false} ParseFront(raw: seq<Segment>, tail: string)
    requires IsFront(raw)
    ensures ParseRest(Print(raw) + tail) == Prepend(Clean(raw), ParseRest(tail))
    decreases |raw|
  {
    if raw == [] {
      assert "" + tail == tail;
    } else {
      var text, path, rest := FrontCases(raw);
      ParseFront(rest, tail);
      PieceInFront(text, path, rest, tail, raw, ParseRest(tail));
    }
  }

  lemma RoundInFront(text: string, path: string, mid: string, clean: seq<Segment>, tail: Parsed)
    requires BraceFree(text) && GoodSegment(Path(path)) && ParseRest(mid) == Prepend(clean, tail)
    ensures ParseRest(Join(text, path, mid)) == Prepend(LiteralBefore(text) + [Path(Trim(path))] + clean, tail)
  {
    Round(text, path, mid);
    PrependTwice(LiteralBefore(text) + [Path(Trim(path))], clean, tail);
  }

  lemma JoinTail(text: string, path: string, rest: string, tail: string)
    ensures Join(text, path, rest) + tail == Join(text, path, rest + tail)
  {
  }

  lemma PieceInFront(text: string, path: string, rest: seq<Segment>, tail: string, all: seq<Segment>, parsed: Parsed)
    requires BraceFree(text) && GoodSegment(Path(path)) && all == LiteralBefore(text) + ([Path(path)] + rest)
    requires ParseRest(Print(rest) + tail) == Prepend(Clean(rest), parsed)
    ensures ParseRest(Print(all) + tail) == Prepend(Clean(all), parsed)
  {
    PrintPiece(text, path, rest);
    JoinTail(text, path, Print(rest), tail);
    RoundInFront(text, path, Print(rest) + tail, Clean(rest), parsed);
  }

  /** A closing brace outside of a path. */
  lemma CloseIsUnexpected(raw: seq<Segment>, text: string, rest: string)
    requires IsFront(raw) && BraceFree(text)
    ensures Parse(Print(raw) + (text + "}" + rest)) == Err(UnexpectedClose)
  {
    ParseFront(raw, text + "}" + rest);
    PlainBefore(text, '}', rest);
  }

  /** An opening brace with no closing one behind it. */
  lemma OpenIsUnclosed(raw: seq<Segment>, text: string, rest: string)
    requires IsFront(raw) && BraceFree(text) && '}' !in rest
    ensures Parse(Print(raw) + (text + "{" + rest)) == Err(Unclosed)
  {
    var s := text + "{" + rest;
    ParseFront(raw, s);
    PlainBefore(text, '{', rest);
    assert s[|text| + 1..] == rest;
    NoClose(rest);
  }

  lemma {:induction false} NoClose(s: string)
    requires '}' !in s
    ensures UpToClose(s) == |s|
  {
    if s != "" {
      assert s[0] in s;
      NoClose(s[1..]);
    }
  }

  /** A path that is blank, and one with an opening brace in it. */
  lemma PathIsRefused(raw: seq<Segment>, text: string, path: string, rest: string)
    requires IsFront(raw) && BraceFree(text) && '}' !in path
    ensures Trim(path) == "" ==> Parse(Print(raw) + Join(text, path, rest)) == Err(EmptyPath)
    ensures '{' in path ==> Parse(Print(raw) + Join(text, path, rest)) == Err(Nested)
  {
    ParseFront(raw, Join(text, path, rest));
    CutIsPiece(text, path, rest);
    InnerOpen(path);
  }

  lemma CutIsPiece(text: string, path: string, rest: string)
    requires BraceFree(text) && '}' !in path
    ensures Cut(Join(text, path, rest)) == Piece(text, path, rest)
  {
    JoinParts(text, path, rest);
    PlainBefore(text, '{', path + "}" + rest);
    UpToCloseAfter(path, rest);
  }

  lemma {:induction false} UpToCloseAfter(path: string, rest: string)
    requires '}' !in path
    ensures UpToClose(path + "}" + rest) == |path|
  {
    var s := path + "}" + rest;
    if path != "" {
      assert s[1..] == path[1..] + "}" + rest && s[0] == path[0] && path[0] in path;
      UpToCloseAfter(path[1..], rest);
    }
  }

  // ---------------------------------------------------------------- what a template evaluates to

  /** Text without braces stands for itself. */
  lemma TextStaysText<V>(w: World<V>, payload: map<string, V>, text: string)
    requires BraceFree(text)
    ensures Eval(w, payload, text) == Some(w.ofText(text))
  {
    if text != "" {
      PlainWhole(text);
      assert ParseRest(text) == Ok([Literal(text)]);
    }
    RenderSingle(w, payload, Literal(text));
  }

  /** A path with text around it is replaced by the text of its value, and fails if there is none. */
  lemma MixedIsText<V>(w: World<V>, payload: map<string, V>, before: string, path: string, behind: string)
    requires BraceFree(before) && BraceFree(path) && BraceFree(behind) && Trim(path) != "" && before + behind != ""
    ensures Eval(w, payload, Join(before, path, behind)) ==
            match w.resolve(payload, Trim(path))
            case None => None
            case Some(v) => Some(w.ofText(before + w.show(v) + behind))
  {
    Round(before, path, behind);
    if behind != "" {
      PlainWhole(behind);
      assert ParseRest(behind) == Ok([Literal(behind)]);
    }
    var front, back := LiteralBefore(before), LiteralBefore(behind);
    var segments := front + [Path(Trim(path))] + back;
    assert Parse(Join(before, path, behind)) == Ok(segments);
    RenderAppend(w, payload, front + [Path(Trim(path))], back);
    RenderAppend(w, payload, front, [Path(Trim(path))]);
    RenderSingle(w, payload, Path(Trim(path)));
    RenderSingle(w, payload, Literal(before));
    RenderSingle(w, payload, Literal(behind));
  }

  /** In plain terms: the remapped payload has every key of either map, what its template evaluates to on
      the payload as it came in under the keys of the map, and the old value elsewhere. */
  lemma RemapIs<V>(w: World<V>, payload: map<string, V>, with: map<string, string>, m: map<string, V>)
    ensures IsRemap(payload, Values(w, payload, with), with.Keys, m) <==>
            m.Keys == payload.Keys + with.Keys &&
            (forall k :: k in with && k in m ==> Eval(w, payload, with[k]) == Some(m[k])) &&
            forall k :: k in payload && k !in with && k in m ==> m[k] == payload[k]
  {
  }

  lemma FailureIs<V>(w: World<V>, payload: map<string, V>, with: map<string, string>, keys: seq<string>, key: string)
    requires forall k :: k in keys ==> k in with
    ensures FirstFailure(Values(w, payload, with), keys, key) <==>
            exists i :: 0 <= i < |keys| && keys[i] == key && Eval(w, payload, with[keys[i]]).None? &&
                        forall j :: 0 <= j < i ==> Eval(w, payload, with[keys[j]]).Some?
  {
  }
}
