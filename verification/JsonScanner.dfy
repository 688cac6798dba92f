/**
 * Extraction of the JSON object embedded in a Codex log body: a scanner that knows strings and braces, checked against
 * the whole grammar of RFC 8259.
 */
module JsonScanner {
  import opened Basics

  // ---------------------------------------------------------------- the scanner

  const QUOTE: CodeUnit := 34
  const BACKSLASH: CodeUnit := 92
  const LBRACE: CodeUnit := 123
  const RBRACE: CodeUnit := 125

  datatype ScanState = ScanState(depth: int, inString: bool, escaped: bool)

  const AT_START := ScanState(0, false, false)

  /** Whether the scanner is still open after a text, or closed at an index of it. */
  datatype Outcome = Open(state: ScanState) | Closed(at: nat)
  {
    function Shift(n: nat): Outcome { if Closed? then Closed(at + n) else this }
  }

  predicate Closes(st: ScanState, ch: CodeUnit) {
    !st.inString && ch == RBRACE && st.depth == 1
  }

  function Next(st: ScanState, ch: CodeUnit): ScanState {
    if st.inString then
      if st.escaped then st.(escaped := false)
      else if ch == BACKSLASH then st.(escaped := true)
      else if ch == QUOTE then st.(inString := false)
      else st
    else if ch == QUOTE then st.(inString := true)
    else if ch == LBRACE then st.(depth := st.depth + 1)
    else if ch == RBRACE then st.(depth := st.depth - 1)
    else st
  }

  function Scan(st: ScanState, text: Text): (o: Outcome)
    ensures o.Closed? ==> o.at < |text| && text[o.at] == RBRACE
    decreases |text|
  {
    if text == [] then Open(st)
    else if Closes(st, text[0]) then Closed(0)
    else Scan(Next(st, text[0]), text[1..]).Shift(1)
  }

  lemma ScanStep(st: ScanState, text: Text, i: nat)
    requires i < |text|
    ensures Scan(st, text[i..])
            == if Closes(st, text[i]) then Closed(0) else Scan(Next(st, text[i]), text[i + 1..]).Shift(1)
  {
    assert text[i..][1..] == text[i + 1..];
  }

  /** The index of the closing brace, or -1; what the scanner says of the text from `start` on. */
  function BalancedEnd(text: Text, start: nat): (end: int)
    requires start <= |text|
    ensures end == -1 || (start <= end < |text| && text[end] == RBRACE)
  {
    EndAt(Scan(AT_START, text[start..]), start)
  }

  function EndAt(o: Outcome, offset: nat): int {
    match o
    case Open(_) => -1
    case Closed(at) => offset + at
  }

  lemma {:induction false} ScanAppend(st: ScanState, a: Text, b: Text)
    ensures Scan(st, a + b)
            == match Scan(st, a) { case Closed(at) => Closed(at) case Open(st') => Scan(st', b).Shift(|a|) }
    decreases |a|
  {
    if a == [] {
      assert a + b == b;
    } else {
      assert (a + b)[1..] == a[1..] + b;
      if !Closes(st, a[0]) { ScanAppend(Next(st, a[0]), a[1..], b); }
    }
  }

  method MatchBalancedObjectEnd(text: Text, start: nat) returns (end: int)
    requires start <= |text|
    ensures end == BalancedEnd(text, start)
  {
    hide Scan;
    var depth, inString, escaped := 0, false, false;
    for i := start to |text|
      invariant BalancedEnd(text, start) == EndAt(Scan(ScanState(depth, inString, escaped), text[i..]), i)
    {
      var ch := text[i];
      ScanStep(ScanState(depth, inString, escaped), text, i);
      if inString {
        if escaped {
          escaped := false;
        } else if ch == BACKSLASH {
          escaped := true;
        } else if ch == QUOTE {
          inString := false;
        }
        continue;
      }
      if ch == QUOTE {
        inString := true;
      } else if ch == LBRACE {
        depth := depth + 1;
      } else if ch == RBRACE {
        depth := depth - 1;
        if depth == 0 {
          return i;
        }
      }
    }
    assert text[|text|..] == [];
    EmptyScan(ScanState(depth, inString, escaped));
    return -1;
  }

  lemma EmptyScan(st: ScanState)
    ensures Scan(st, []) == Open(st)
  {
  }

  // ---------------------------------------------------------------- extraction

  /** The text of an ASCII literal. */
  function Ascii(s: string): (t: Text)
    requires forall i: nat | i < |s| :: s[i] < '\U{80}'
    ensures |t| == |s|
  {
    seq(|s|, i requires 0 <= i < |s| => s[i] as int as CodeUnit)
  }

  const MARKER: Text := Ascii("websocket event: ")

  predicate OccursAt(text: Text, pattern: Text, k: nat) {
    k + |pattern| <= |text| && text[k..k + |pattern|] == pattern
  }

  /** `text.indexOf(pattern, from)`: the least occurrence from `from` on. */
  function IndexOf(text: Text, pattern: Text, from: nat): (k: Option<nat>)
    ensures k.Some? ==> from <= k.value <= |text| && OccursAt(text, pattern, k.value)
    ensures k.Some? ==> forall i: nat | from <= i < k.value :: !OccursAt(text, pattern, i)
    ensures k.None? ==> forall i: nat | from <= i :: !OccursAt(text, pattern, i)
    decreases |text| - from
  {
    if from + |pattern| > |text| then None
    else if OccursAt(text, pattern, from) then Some(from)
    else IndexOf(text, pattern, from + 1)
  }

  function SearchFrom(text: Text): nat {
    match IndexOf(text, MARKER, 0)
    case Some(k) => k + |MARKER|
    case None => 0
  }

  function Extracted(text: Text): Text {
    match IndexOf(text, [LBRACE], SearchFrom(text))
    case None => text
    case Some(start) =>
      var end := BalancedEnd(text, start);
      if end >= 0 then text[start..end + 1] else text[start..]
  }

  method ExtractEmbeddedJson(text: Text) returns (json: Text)
    ensures json == Extracted(text)
  {
    var markerAt := IndexOf(text, MARKER, 0);
    var searchFrom := if markerAt.Some? then markerAt.value + |MARKER| else 0;
    var start := IndexOf(text, [LBRACE], searchFrom);
    if start.None? {
      return text;
    }
    var end := MatchBalancedObjectEnd(text, start.value);
    return if end >= 0 then text[start.value..end + 1] else text[start.value..];
  }

  // ---------------------------------------------------------------- JSON texts

  predicate AreDigits(s: Text) { forall c <- s :: 48 <= c <= 57 }

  predicate IsHexDigit(c: CodeUnit) { 48 <= c <= 57 || 65 <= c <= 70 || 97 <= c <= 102 }

  /** Section 2: the four whitespace characters. */
  predicate IsSpace(s: Text) { forall c <- s :: c in {0x20, 0x09, 0x0A, 0x0D} }

  /** Section 7: an unescaped character, a two-character escape, or a `\u` escape. */
  datatype Item =
    | Plain(c: CodeUnit)
    | Escape(c: CodeUnit)
    | Unicode(d0: CodeUnit, d1: CodeUnit, d2: CodeUnit, d3: CodeUnit)
  {
    predicate Ok() {
      match this
      case Plain(c) => c >= 0x20 && c != QUOTE && c != BACKSLASH
      case Escape(c) => c in {QUOTE, BACKSLASH, 47, 98, 102, 110, 114, 116}
      case Unicode(d0, d1, d2, d3) => IsHexDigit(d0) && IsHexDigit(d1) && IsHexDigit(d2) && IsHexDigit(d3)
    }

    function Print(): Text {
      match this
      case Plain(c) => [c]
      case Escape(c) => [BACKSLASH, c]
      case Unicode(d0, d1, d2, d3) => [BACKSLASH, 117, d0, d1, d2, d3]
    }
  }

  /** Section 6; a part that is absent is empty. */
  datatype Number = Number(negative: bool, integer: Text, fraction: Text, exponent: Text)
  {
    predicate Ok() {
      && |integer| > 0 && AreDigits(integer) && (integer[0] == 48 ==> |integer| == 1)
      && (fraction == [] || (|fraction| > 1 && fraction[0] == 46 && AreDigits(fraction[1..])))
      && (exponent == [] || (exponent[0] in {69, 101} && |exponent| > 1
                             && (AreDigits(exponent[1..])
                                 || (|exponent| > 2 && exponent[1] in {43, 45} && AreDigits(exponent[2..])))))
    }

    function Print(): Text { (if negative then [45] else []) + integer + fraction + exponent }
  }

  datatype Json =
    | Null | Bool(b: bool) | Num(n: Number) | Str(items: seq<Item>)
    | Array(space: Text, elements: Elements)
    | Object(space: Text, members: Members)

  /** Array elements with the whitespace around each value; `space` above is that of an empty array or object. */
  datatype Elements = NoElements | Element(before: Text, value: Json, after: Text, rest: Elements)

  datatype Members =
    | NoMembers
    | Member(before: Text, key: seq<Item>, beforeColon: Text, afterColon: Text, value: Json, after: Text, rest: Members)

  predicate ItemsOk(items: seq<Item>) { forall item <- items :: item.Ok() }

  predicate JsonOk(j: Json) {
    match j
    case Null => true
    case Bool(_) => true
    case Num(n) => n.Ok()
    case Str(items) => ItemsOk(items)
    case Array(space, elements) => IsSpace(space) && ElementsOk(elements)
    case Object(space, members) => IsSpace(space) && MembersOk(members)
  }

  predicate ElementsOk(es: Elements) {
    es.Element? ==> IsSpace(es.before) && JsonOk(es.value) && IsSpace(es.after) && ElementsOk(es.rest)
  }

  predicate MembersOk(ms: Members) {
    ms.Member? ==>
      && IsSpace(ms.before) && ItemsOk(ms.key) && IsSpace(ms.beforeColon) && IsSpace(ms.afterColon)
      && JsonOk(ms.value) && IsSpace(ms.after) && MembersOk(ms.rest)
  }

  function PrintItems(items: seq<Item>): Text {
    if items == [] then [] else items[0].Print() + PrintItems(items[1..])
  }

  function PrintString(items: seq<Item>): Text { [QUOTE] + PrintItems(items) + [QUOTE] }

  function PrintJson(j: Json): Text {
    match j
    case Null => [110, 117, 108, 108]
    case Bool(b) => if b then [116, 114, 117, 101] else [102, 97, 108, 115, 101]
    case Num(n) => n.Print()
    case Str(items) => PrintString(items)
    case Array(space, elements) => [91] + space + PrintElements(elements) + [93]
    case Object(space, members) => [LBRACE] + (space + PrintMembers(members)) + [RBRACE]
  }

  const COMMA: CodeUnit := 44
  const COLON: CodeUnit := 58

  function PrintElements(es: Elements): Text {
    if es.NoElements? then []
    else es.before + PrintJson(es.value) + es.after
         + (if es.rest.NoElements? then [] else [COMMA] + PrintElements(es.rest))
  }

  function PrintMembers(ms: Members): Text {
    if ms.NoMembers? then []
    else ms.before + PrintString(ms.key) + ms.beforeColon + [COLON] + ms.afterColon + PrintJson(ms.value) + ms.after
         + (if ms.rest.NoMembers? then [] else [COMMA] + PrintMembers(ms.rest))
  }

  // ---------------------------------------------------------------- values are neutral inside an object

  /** Inside an object the text neither closes it nor changes the scanner's state. */
  ghost predicate Neutral(text: Text) {
    forall depth: int | depth >= 1 :: Scan(ScanState(depth, false, false), text) == Open(ScanState(depth, false, false))
  }

  lemma NeutralAppend(a: Text, b: Text)
    requires Neutral(a) && Neutral(b)
    ensures Neutral(a + b)
  {
    forall depth: int | depth >= 1
      ensures Scan(ScanState(depth, false, false), a + b) == Open(ScanState(depth, false, false))
    {
      ScanAppend(ScanState(depth, false, false), a, b);
    }
  }

  predicate IsInert(text: Text) { forall c <- text :: c != QUOTE && c != LBRACE && c != RBRACE }

  lemma {:induction false} InertScan(text: Text, depth: int)
    requires IsInert(text)
    ensures Scan(ScanState(depth, false, false), text) == Open(ScanState(depth, false, false))
  {
    if text != [] {
      assert text[0] in text && forall c <- text[1..] :: c in text;
      InertScan(text[1..], depth);
    }
  }

  lemma InertIsNeutral(text: Text)
    requires IsInert(text)
    ensures Neutral(text)
  {
    forall depth: int | depth >= 1
      ensures Scan(ScanState(depth, false, false), text) == Open(ScanState(depth, false, false))
    {
      InertScan(text, depth);
    }
  }

  lemma ScanOne(st: ScanState, ch: CodeUnit)
    requires !Closes(st, ch)
    ensures Scan(st, [ch]) == Open(Next(st, ch))
  {
  }

  lemma ScanTwo(st: ScanState, c: CodeUnit, d: CodeUnit)
    requires !Closes(st, c) && !Closes(Next(st, c), d)
    ensures Scan(st, [c, d]) == Open(Next(Next(st, c), d))
  {
    assert [c, d] == [c] + [d];
    ScanAppend(st, [c], [d]);
  }

  lemma {:induction false} ItemsScan(items: seq<Item>, depth: int)
    requires ItemsOk(items)
    ensures Scan(ScanState(depth, true, false), PrintItems(items)) == Open(ScanState(depth, true, false))
  {
    var st := ScanState(depth, true, false);
    if items != [] {
      ItemScan(items[0], depth);
      ItemsScan(items[1..], depth);
      ScanAppend(st, items[0].Print(), PrintItems(items[1..]));
    }
  }

  lemma ItemScan(item: Item, depth: int)
    requires item.Ok()
    ensures Scan(ScanState(depth, true, false), item.Print()) == Open(ScanState(depth, true, false))
  {
    match item {
      case Plain(_) =>
      case Escape(c) => ScanTwo(ScanState(depth, true, false), BACKSLASH, c);
      case Unicode(d0, d1, d2, d3) =>
        var st := ScanState(depth, true, false);
        ScanTwo(st, BACKSLASH, 117);
        HexScan([d0, d1, d2, d3], depth);
        assert item.Print() == [BACKSLASH, 117] + [d0, d1, d2, d3];
        ScanAppend(st, [BACKSLASH, 117], [d0, d1, d2, d3]);
    }
  }

  lemma {:induction false} HexScan(digits: Text, depth: int)
    requires forall c <- digits :: IsHexDigit(c)
    ensures Scan(ScanState(depth, true, false), digits) == Open(ScanState(depth, true, false))
  {
    if digits != [] {
      assert digits[0] in digits && forall c <- digits[1..] :: c in digits;
      HexScan(digits[1..], depth);
    }
  }

  lemma StringIsNeutral(items: seq<Item>)
    requires ItemsOk(items)
    ensures Neutral(PrintString(items))
  {
    forall depth: int | depth >= 1
      ensures Scan(ScanState(depth, false, false), PrintString(items)) == Open(ScanState(depth, false, false))
    {
      var outside, inside := ScanState(depth, false, false), ScanState(depth, true, false);
      ItemsScan(items, depth);
      ScanOne(outside, QUOTE);
      ScanOne(inside, QUOTE);
      ScanAppend(outside, [QUOTE], PrintItems(items));
      ScanAppend(outside, [QUOTE] + PrintItems(items), [QUOTE]);
    }
  }

  // ---------------------------------------------------------------- the main results

  lemma NumberIsInert(n: Number)
    requires n.Ok()
    ensures IsInert(n.Print())
  {
    assert n.fraction != [] ==> n.fraction == [n.fraction[0]] + n.fraction[1..];
    assert n.exponent != [] ==> n.exponent == [n.exponent[0]] + n.exponent[1..];
    assert |n.exponent| > 2 ==> n.exponent[1..] == [n.exponent[1]] + n.exponent[2..];
  }

  lemma {:induction false} JsonIsNeutral(j: Json)
    requires JsonOk(j)
    ensures Neutral(PrintJson(j))
  {
    hide Neutral;
    match j {
      case Null => InertIsNeutral(PrintJson(j));
      case Bool(_) => InertIsNeutral(PrintJson(j));
      case Num(n) =>
        NumberIsInert(n);
        InertIsNeutral(PrintJson(j));
      case Str(items) => StringIsNeutral(items);
      case Array(space, elements) =>
        InertIsNeutral([91] + space);
        ElementsAreNeutral(elements);
        InertIsNeutral([93]);
        NeutralAppend([91] + space, PrintElements(elements));
        NeutralAppend([91] + space + PrintElements(elements), [93]);
      case Object(space, members) =>
        InertIsNeutral(space);
        MembersAreNeutral(members);
        NeutralAppend(space, PrintMembers(members));
        BracedIsNeutral(space + PrintMembers(members));
    }
  }

  lemma {:induction false} ElementsAreNeutral(es: Elements)
    requires ElementsOk(es)
    ensures Neutral(PrintElements(es))
  {
    hide Neutral;
    if es.NoElements? {
      InertIsNeutral([]);
    } else {
      var tail := if es.rest.NoElements? then [] else [COMMA] + PrintElements(es.rest);
      InertIsNeutral(es.before);
      JsonIsNeutral(es.value);
      InertIsNeutral(es.after);
      InertIsNeutral([]);
      InertIsNeutral([COMMA]);
      ElementsAreNeutral(es.rest);
      NeutralAppend([COMMA], PrintElements(es.rest));
      NeutralAppend(es.before, PrintJson(es.value));
      NeutralAppend(es.before + PrintJson(es.value), es.after);
      NeutralAppend(es.before + PrintJson(es.value) + es.after, tail);
    }
  }

  lemma {:induction false} MembersAreNeutral(ms: Members)
    requires MembersOk(ms)
    ensures Neutral(PrintMembers(ms))
  {
    hide Neutral;
    if ms.NoMembers? {
      InertIsNeutral([]);
    } else {
      var tail := if ms.rest.NoMembers? then [] else [COMMA] + PrintMembers(ms.rest);
      var name := ms.before + PrintString(ms.key) + ms.beforeColon + [COLON] + ms.afterColon;
      InertIsNeutral(ms.before);
      StringIsNeutral(ms.key);
      InertIsNeutral(ms.beforeColon);
      InertIsNeutral([COLON]);
      InertIsNeutral(ms.afterColon);
      NeutralAppend(ms.before, PrintString(ms.key));
      NeutralAppend(ms.before + PrintString(ms.key), ms.beforeColon);
      NeutralAppend(ms.before + PrintString(ms.key) + ms.beforeColon, [COLON]);
      NeutralAppend(ms.before + PrintString(ms.key) + ms.beforeColon + [COLON], ms.afterColon);
      JsonIsNeutral(ms.value);
      InertIsNeutral(ms.after);
      InertIsNeutral([]);
      InertIsNeutral([COMMA]);
      MembersAreNeutral(ms.rest);
      NeutralAppend([COMMA], PrintMembers(ms.rest));
      NeutralAppend(name, PrintJson(ms.value));
      NeutralAppend(name + PrintJson(ms.value), ms.after);
      NeutralAppend(name + PrintJson(ms.value) + ms.after, tail);
    }
  }

  lemma BracedIsNeutral(body: Text)
    requires Neutral(body)
    ensures Neutral([LBRACE] + body + [RBRACE])
  {
    forall depth: int | depth >= 1
      ensures Scan(ScanState(depth, false, false), [LBRACE] + body + [RBRACE]) == Open(ScanState(depth, false, false))
    {
      var outside, inside := ScanState(depth, false, false), ScanState(depth + 1, false, false);
      ScanOne(outside, LBRACE);
      ScanOne(inside, RBRACE);
      ScanAppend(outside, [LBRACE], body);
      ScanAppend(outside, [LBRACE] + body, [RBRACE]);
    }
  }

  /** From its opening brace on, the scanner closes an object at its very last character. */
  lemma ObjectClosesAtItsEnd(j: Json)
    requires JsonOk(j) && j.Object?
    ensures Scan(AT_START, PrintJson(j)) == Closed(|PrintJson(j)| - 1)
  {
    var body := j.space + PrintMembers(j.members);
    InertIsNeutral(j.space);
    MembersAreNeutral(j.members);
    NeutralAppend(j.space, PrintMembers(j.members));
    ScanOne(AT_START, LBRACE);
    ScanAppend(AT_START, [LBRACE], body);
    ScanAppend(AT_START, [LBRACE] + body, [RBRACE]);
  }

  /** An object followed by anything ends where it was printed to end; cut anywhere before that, it has no end. */
  lemma ObjectEndIsExact(j: Json, suffix: Text, cut: nat)
    requires JsonOk(j) && j.Object? && cut < |PrintJson(j)|
    ensures Scan(AT_START, PrintJson(j) + suffix) == Closed(|PrintJson(j)| - 1)
    ensures Scan(AT_START, PrintJson(j)[..cut]).Open?
  {
    var text := PrintJson(j);
    ObjectClosesAtItsEnd(j);
    ScanAppend(AT_START, text, suffix);
    ScanAppend(AT_START, text[..cut], text[cut..]);
    assert text[..cut] + text[cut..] == text;
  }

  lemma MarkerStartsOnce()
    ensures forall j: nat | 0 < j < |MARKER| :: MARKER[j] != MARKER[0]
  {
  }

  /** No proper suffix of the marker is a prefix of it, so it first occurs right after a text free of it. */
  lemma MarkerFirstOccurs(noise: Text, rest: Text)
    requires IndexOf(noise, MARKER, 0).None?
    ensures IndexOf(noise + MARKER + rest, MARKER, 0) == Some(|noise|)
  {
    hide Ascii, IndexOf;
    MarkerStartsOnce();
    var text := noise + MARKER + rest;
    assert OccursAt(text, MARKER, |noise|);
    forall k: nat | k < |noise|
      ensures !OccursAt(text, MARKER, k)
    {
      if k + |MARKER| <= |noise| {
        assert !OccursAt(noise, MARKER, k);
        assert text[k..k + |MARKER|] == noise[k..k + |MARKER|];
      } else if k + |MARKER| <= |text| {
        assert text[k..k + |MARKER|][|noise| - k] == text[|noise|] == MARKER[0];
      }
    }
  }

  lemma FirstBrace(before: Text, gap: Text, rest: Text)
    requires LBRACE !in gap && |rest| > 0 && rest[0] == LBRACE
    ensures IndexOf(before + gap + rest, [LBRACE], |before|) == Some(|before + gap|)
  {
    var text := before + gap + rest;
    assert text[|before + gap|] == LBRACE;
    assert OccursAt(text, [LBRACE], |before + gap|);
    forall k: nat | |before| <= k < |before + gap|
      ensures !OccursAt(text, [LBRACE], k)
    {
      assert text[k] == gap[k - |before|];
      assert text[k..k + 1][0] == text[k];
    }
  }

  /** What the scanner makes of a text that starts with its object. */
  function UpToEnd(body: Text): Text {
    match Scan(AT_START, body)
    case Open(_) => body
    case Closed(at) => body[..at + 1]
  }

  lemma ExtractedFrom(text: Text, start: nat)
    requires IndexOf(text, [LBRACE], SearchFrom(text)) == Some(start)
    ensures start <= |text| && Extracted(text) == UpToEnd(text[start..])
  {
    hide Scan, IndexOf, Ascii, OccursAt, SearchFrom;
    var rest := text[start..];
    var o := Scan(AT_START, rest);
    if o.Closed? { assert text[start..start + o.at + 1] == rest[..o.at + 1]; }
  }

  lemma ExtractedAfterMarker(noise: Text, gap: Text, body: Text)
    requires IndexOf(noise, MARKER, 0).None? && LBRACE !in gap && |body| > 0 && body[0] == LBRACE
    ensures Extracted(noise + MARKER + gap + body) == UpToEnd(body)
  {
    hide Scan, IndexOf, OccursAt, Ascii, Extracted;
    var text := noise + MARKER + gap + body;
    assert text == noise + MARKER + (gap + body);
    MarkerFirstOccurs(noise, gap + body);
    FirstBrace(noise + MARKER, gap, body);
    ExtractedFrom(text, |noise + MARKER + gap|);
    assert text[|noise + MARKER + gap|..] == body;
  }

  lemma ExtractedWithoutMarker(noise: Text, body: Text)
    requires IndexOf(noise + body, MARKER, 0).None? && LBRACE !in noise && |body| > 0 && body[0] == LBRACE
    ensures Extracted(noise + body) == UpToEnd(body)
  {
    hide Scan, IndexOf, OccursAt, Ascii, Extracted;
    assert [] + noise == noise;
    FirstBrace([], noise, body);
    ExtractedFrom(noise + body, |noise|);
    assert (noise + body)[|noise|..] == body;
  }

  /**
   * A log body of noise, the marker, a gap without braces, an object and anything after it yields exactly the object as
   * printed; and a body cut off within the object yields what there is of it.
   */
  lemma MarkedObjectIsExtracted(noise: Text, gap: Text, j: Json, suffix: Text, cut: nat)
    requires JsonOk(j) && j.Object? && IndexOf(noise, MARKER, 0).None? && LBRACE !in gap && 0 < cut < |PrintJson(j)|
    ensures Extracted(noise + MARKER + gap + (PrintJson(j) + suffix)) == PrintJson(j)
    ensures Extracted(noise + MARKER + gap + PrintJson(j)[..cut]) == PrintJson(j)[..cut]
  {
    hide Scan, Extracted, IndexOf;
    var printed := PrintJson(j);
    ObjectEndIsExact(j, suffix, cut);
    ExtractedAfterMarker(noise, gap, printed + suffix);
    assert (printed + suffix)[..|printed|] == printed;
    ExtractedAfterMarker(noise, gap, printed[..cut]);
  }

  /** Without a marker anywhere, the first object is found after any text without an opening brace. */
  lemma UnmarkedObjectIsExtracted(noise: Text, j: Json, suffix: Text)
    requires JsonOk(j) && j.Object? && LBRACE !in noise
    requires IndexOf(noise + (PrintJson(j) + suffix), MARKER, 0).None?
    ensures Extracted(noise + (PrintJson(j) + suffix)) == PrintJson(j)
  {
    hide Scan, Extracted, IndexOf;
    var printed := PrintJson(j);
    ObjectEndIsExact(j, suffix, 0);
    ExtractedWithoutMarker(noise, printed + suffix);
    assert (printed + suffix)[..|printed|] == printed;
  }

  /**
   * A body that is nothing but an object does not always flow through: exactly when the marker occurs in it,
   * necessarily inside a string, with an opening brace somewhere after it, something shorter is extracted.
   */
  lemma PureObjectFlowsThroughIff(j: Json)
    requires JsonOk(j) && j.Object?
    ensures var text := PrintJson(j);
            Extracted(text) == text
            <==> (IndexOf(text, MARKER, 0).None? || IndexOf(text, [LBRACE], SearchFrom(text)).None?)
  {
    var text := PrintJson(j);
    if IndexOf(text, MARKER, 0).None? {
      assert [] + (text + []) == text;
      UnmarkedObjectIsExtracted([], j, []);
    }
  }

  /** The object `{"websocket event: {":null}`. */
  function QuotingObject(): Json {
    Object([], Member([], QuotingKey(), [], [], Null, [], NoMembers))
  }

  function QuotingKey(): seq<Item> { PlainItems(MARKER + [LBRACE]) }

  function PlainItems(text: Text): seq<Item> {
    if text == [] then [] else [Plain(text[0])] + PlainItems(text[1..])
  }

  lemma {:induction false} PlainPrints(text: Text)
    ensures PrintItems(PlainItems(text)) == text
    ensures (forall c <- text :: Plain(c).Ok()) ==> ItemsOk(PlainItems(text))
  {
    if text != [] { PlainPrints(text[1..]); }
  }

  lemma OneMemberPrints(key: seq<Item>, value: Json)
    ensures PrintJson(Object([], Member([], key, [], [], value, [], NoMembers)))
            == [LBRACE] + PrintString(key) + ([COLON] + PrintJson(value) + [RBRACE])
  {
    hide PrintString;
    var ms := Member([], key, [], [], value, [], NoMembers);
    assert PrintMembers(ms) == PrintString(key) + [COLON] + PrintJson(value);
  }

  lemma QuotingIsOk()
    ensures JsonOk(QuotingObject())
  {
    hide Ascii, ItemsOk, PlainItems;
    MarkerIsPlain();
    PlainPrints(MARKER + [LBRACE]);
    assert MembersOk(QuotingObject().members);
  }

  lemma MarkerIsPlain()
    ensures forall c <- MARKER + [LBRACE] :: Plain(c).Ok()
  {
    assert forall i: nat | i < |MARKER| :: Plain(MARKER[i]).Ok();
  }

  /** An object that quotes the marker before a brace is misread: the extraction starts inside it. */
  lemma QuotedMarkerIsMisread(j: Json, k: nat, m: nat)
    requires JsonOk(j) && j.Object? && OccursAt(PrintJson(j), MARKER, k)
    requires k + |MARKER| <= m && OccursAt(PrintJson(j), [LBRACE], m)
    ensures Extracted(PrintJson(j)) != PrintJson(j)
  {
    hide PrintJson, Extracted, IndexOf, Scan, Ascii, JsonOk, OccursAt;
    PureObjectFlowsThroughIff(j);
  }

  /** There is such an object. */
  lemma QuotingObjectIsMisread()
    ensures JsonOk(QuotingObject()) && Extracted(PrintJson(QuotingObject())) != PrintJson(QuotingObject())
  {
    hide PrintJson, Extracted, IndexOf, Scan, Ascii, JsonOk, QuotingKey;
    QuotingIsOk();
    OneMemberPrints(QuotingKey(), Null);
    var rest := [COLON] + PrintJson(Null) + [RBRACE];
    QuotingKeyPrints();
    QuotingOffsets(PrintItems(QuotingKey()), rest);
    QuotedMarkerIsMisread(QuotingObject(), 2, 19);
  }

  lemma QuotingKeyPrints()
    ensures PrintItems(QuotingKey()) == MARKER + [LBRACE]
  {
    hide Ascii;
    PlainPrints(MARKER + [LBRACE]);
  }

  lemma QuotingOffsets(key: Text, rest: Text)
    requires key == MARKER + [LBRACE]
    ensures var text := [LBRACE] + ([QUOTE] + key + [QUOTE]) + rest;
            OccursAt(text, MARKER, 2) && OccursAt(text, [LBRACE], 19)
  {
    hide Ascii;
    var text := [LBRACE] + ([QUOTE] + key + [QUOTE]) + rest;
    assert text[2..19] == key[..17] == MARKER;
    assert text[19..20] == [LBRACE];
  }
}
