/**
 The text of a player configuration (src/player_config.cpp): what `player_config_save` prints
 and what `player_config_load_checked` reads, line by line.

 The decimal text of a gain is a given pair of functions; everything else is spelled out.
 */
module PlayerConfigText {
  import opened Options

  const FORMAT_VERSION: nat := 1
  const BUS_COUNT: nat := 4
  const MAX_U32: nat := 0xFFFF_FFFF

  datatype Config<G> = Config(
    profile: string, output: string, subsystems: nat, haveSubsystems: bool,
    gains: seq<G>, muted: seq<bool>, shaders: bool, hd: bool)

  /** How a gain is printed, and how one is read (refusing what is not finite or not in 0..1). */
  datatype GainText<!G> = GainText(show: G -> string, read: string -> Option<G>)

  // ---------------------------------------------------------------------------------------
  // Trimming and finding.
  // ---------------------------------------------------------------------------------------

  predicate Blank(c: char) { c == ' ' || c == '\t' || c == '\r' || c == '\n' }

  function TrimLeft(s: string): string {
    if s != "" && Blank(s[0]) then TrimLeft(s[1..]) else s
  }

  function TrimRight(s: string): string {
    if s != "" && Blank(s[|s| - 1]) then TrimRight(s[..|s| - 1]) else s
  }

  function Trim(s: string): string { TrimRight(TrimLeft(s)) }

  /** Neither end is blank. */
  predicate Tight(s: string) { s != "" && !Blank(s[0]) && !Blank(s[|s| - 1]) }

  /** The first place of c, or the length. */
  function Find(s: string, c: char): (i: nat)
    ensures i <= |s|
    ensures forall k :: 0 <= k < i ==> s[k] != c
    ensures i < |s| ==> s[i] == c
  {
    if s == "" then 0 else if s[0] == c then 0 else 1 + Find(s[1..], c)
  }

  lemma TrimTight(s: string)
    requires Tight(s)
    ensures Trim(s) == s && Trim(" " + s) == s && Trim(s + " ") == s
  {
    assert (" " + s)[1..] == s;
    assert (s + " ")[..|s|] == s;
  }

  lemma FindIn(a: string, c: char, b: string)
    requires forall k :: 0 <= k < |a| ==> a[k] != c
    ensures var s := a + [c] + b; Find(s, c) == |a| < |s| && s[..|a|] == a && s[|a| + 1..] == b
  {
    var s := a + [c] + b;
    assert s[|a|] == c;
    assert forall k :: 0 <= k < |a| ==> s[k] == a[k];
  }

  // ---------------------------------------------------------------------------------------
  // Numbers and booleans.
  // ---------------------------------------------------------------------------------------

  predicate Digit(c: char) { '0' <= c <= '9' }

  function Decimal(n: nat): (s: string)
    ensures s != "" && forall i :: 0 <= i < |s| ==> Digit(s[i])
  {
    var last := ['0' + (n % 10) as char];
    if n < 10 then last else Decimal(n / 10) + last
  }

  function DigitsValue(s: string): nat
    requires forall i :: 0 <= i < |s| ==> Digit(s[i])
  {
    if s == "" then 0
    else
      assert Digit(s[|s| - 1]);
      10 * DigitsValue(s[..|s| - 1]) + (s[|s| - 1] as int - '0' as int)
  }

  lemma {:induction false} DecimalRoundTrip(n: nat)
    ensures DigitsValue(Decimal(n)) == n
  {
    var last := '0' + (n % 10) as char;
    assert last as int - '0' as int == n % 10;
    if n < 10 {
      assert Decimal(n)[..0] == "";
    } else {
      DecimalRoundTrip(n / 10);
      assert Decimal(n)[..|Decimal(n)| - 1] == Decimal(n / 10);
    }
  }

  /** `std::from_chars` of an unsigned 32-bit number that takes the whole text. */
  function ParseUnsigned(text: string): Option<nat> {
    var value := Trim(text);
    if value == "" || (exists i :: 0 <= i < |value| && !Digit(value[i])) then None
    else if DigitsValue(value) > MAX_U32 then None
    else Some(DigitsValue(value))
  }

  function ShowBool(b: bool): string { if b then "true" else "false" }

  function ParseBool(text: string): Option<bool> {
    if Trim(text) == "true" then Some(true) else if Trim(text) == "false" then Some(false) else None
  }

  lemma UnsignedRoundTrip(n: nat)
    requires n <= MAX_U32
    ensures ParseUnsigned(Decimal(n)) == Some(n) && Tight(Decimal(n))
  {
    assert Digit(Decimal(n)[0]) && Digit(Decimal(n)[|Decimal(n)| - 1]);
    TrimTight(Decimal(n));
    DecimalRoundTrip(n);
  }

  lemma BoolRoundTrip(b: bool)
    ensures ParseBool(ShowBool(b)) == Some(b) && Tight(ShowBool(b))
  {
    TrimTight(ShowBool(b));
  }

  // ---------------------------------------------------------------------------------------
  // Quoted strings.
  // ---------------------------------------------------------------------------------------

  function EscapeChar(c: char): string {
    if c == '"' then "\\\""
    else if c == '\\' then "\\\\"
    else if c == '\n' then "\\n"
    else if c == '\r' then "\\r"
    else if c == '\t' then "\\t"
    else [c]
  }

  function Escape(s: string): string {
    if s == "" then "" else EscapeChar(s[0]) + Escape(s[1..])
  }

  function EscapedAs(c: char): Option<char> {
    if c == '"' || c == '\\' then Some(c)
    else if c == 'n' then Some('\n')
    else if c == 'r' then Some('\r')
    else if c == 't' then Some('\t')
    else None
  }

  function Control(c: char): bool { c < ' ' }

  function Prepended(s: string, rest: Option<string>): Option<string> {
    if rest.None? then None else Some(s + rest.value)
  }

  lemma PrependNothing(rest: Option<string>)
    ensures Prepended("", rest) == rest
  {
    if rest.Some? { assert "" + rest.value == rest.value; }
  }

  lemma PrependTwice(a: string, b: string, rest: Option<string>)
    ensures Prepended(a, Prepended(b, rest)) == Prepended(a + b, rest)
  {
    if rest.Some? { assert a + (b + rest.value) == a + b + rest.value; }
  }

  /** What stands between the quotes, if it is written correctly. */
  function Unescape(s: string): Option<string> {
    if s == "" then Some("")
    else if s[0] != '\\' then
      if Control(s[0]) then None
      else Prepended([s[0]], Unescape(s[1..]))
    else if |s| < 2 || EscapedAs(s[1]).None? then None
    else Prepended([EscapedAs(s[1]).value], Unescape(s[2..]))
  }

  function ParseString(text: string): Option<string> {
    var value := Trim(text);
    if |value| < 2 || value[0] != '"' || value[|value| - 1] != '"' then None
    else Unescape(value[1..|value| - 1])
  }

  /** The only control characters are those the printer escapes. */
  predicate Clean(s: string) {
    forall i :: 0 <= i < |s| ==> !Control(s[i]) || s[i] == '\n' || s[i] == '\r' || s[i] == '\t'
  }

  lemma {:induction false} EscapeRoundTrip(s: string)
    ensures Unescape(Escape(s)) == if Clean(s) then Some(s) else None
  {
    if s != "" {
      var c, rest := s[0], s[1..];
      EscapeRoundTrip(rest);
      UnescapeOne(c, Escape(rest));
      assert Clean(s) <==> Clean([c]) && Clean(rest) by {
        assert s == [c] + rest;
      }
    }
  }

  lemma UnescapeOne(c: char, tail: string)
    ensures Unescape(EscapeChar(c) + tail) ==
            if !Clean([c]) || Unescape(tail).None? then None else Some([c] + Unescape(tail).value)
  {
    var e := EscapeChar(c) + tail;
    if |EscapeChar(c)| == 1 {
      assert e[1..] == tail;
      assert Clean([c]) <==> !Control(c) by { assert [c][0] == c; }
    } else {
      assert e[2..] == tail;
      assert Clean([c]);
    }
  }

  lemma {:induction false} EscapeHasNoNewline(s: string)
    ensures forall i :: 0 <= i < |Escape(s)| ==> Escape(s)[i] != '\n'
  {
    if s != "" { EscapeHasNoNewline(s[1..]); }
  }

  /** A printed string reads back exactly when its control characters are the escaped ones. */
  lemma QuotedRoundTrip(s: string)
    ensures ParseString("\"" + Escape(s) + "\"") == if Clean(s) then Some(s) else None
    ensures Tight("\"" + Escape(s) + "\"")
  {
    var quoted := "\"" + Escape(s) + "\"";
    TrimTight(quoted);
    assert quoted[1..|quoted| - 1] == Escape(s);
    EscapeRoundTrip(s);
  }

  lemma Regroup(a: string, b: string, c: string)
    ensures a + (b + c) == (a + b) + c
  {
  }

  /** The loop of `escape_string`. */
  method EscapeString(value: string) returns (escaped: string)
    ensures escaped == Escape(value)
  {
    escaped := "";
    for i := 0 to |value|
      invariant escaped + Escape(value[i..]) == Escape(value)
    {
      assert value[i..][1..] == value[i + 1..];
      Regroup(escaped, EscapeChar(value[i]), Escape(value[i + 1..]));
      escaped := escaped + EscapeChar(value[i]);
    }
  }

  /** The loop of `parse_string`: it stops at the first character it cannot read. */
  method ReadString(text: string) returns (result: Option<string>)
    ensures result == ParseString(text)
  {
    var value := Trim(text);
    if |value| < 2 || value[0] != '"' || value[|value| - 1] != '"' { return None; }
    ghost var inner := value[1..|value| - 1];
    assert forall k :: 0 <= k < |inner| ==> inner[k] == value[k + 1];
    assert inner[0..] == inner;
    PrependNothing(Unescape(inner));
    var parsed := "";
    var index := 1;
    while index + 1 < |value|
      invariant 1 <= index <= |value| - 1
      invariant Unescape(inner) ==
                Prepended(parsed, Unescape(inner[index - 1..]))
    {
      ghost var left := inner[index - 1..];
      assert left[0] == inner[index - 1];
      if value[index] != '\\' {
        if Control(value[index]) { return None; }
        assert left[1..] == inner[index..];
        PrependTwice(parsed, [value[index]], Unescape(inner[index..]));
        parsed := parsed + [value[index]];
        index := index + 1;
      } else {
        index := index + 1;
        if index + 1 >= |value| { return None; }
        assert left[1] == inner[index - 1] && left[2..] == inner[index..];
        var c := EscapedAs(value[index]);
        if c.None? { return None; }
        PrependTwice(parsed, [c.value], Unescape(inner[index..]));
        parsed := parsed + [c.value];
        index := index + 1;
      }
    }
    assert inner[index - 1..] == "" && parsed + "" == parsed;
    return Some(parsed);
  }

  // ---------------------------------------------------------------------------------------
  // Arrays.
  // ---------------------------------------------------------------------------------------

  /** The comma-separated elements, trimmed; none may be empty. */
  function Elements(body: string): Option<seq<string>>
    decreases |body|
  {
    var comma := Find(body, ',');
    var element := Trim(body[..comma]);
    if element == "" then None
    else if comma == |body| then Some([element])
    else
      var rest := Elements(body[comma + 1..]);
      if rest.None? then None else Some([element] + rest.value)
  }

  function SplitArray(text: string): Option<seq<string>> {
    var value := Trim(text);
    if |value| < 2 || value[0] != '[' || value[|value| - 1] != ']' then None
    else
      var elements := Elements(value[1..|value| - 1]);
      if elements.Some? && |elements.value| == BUS_COUNT then elements else None
  }

  /** The loop of `split_array`. */
  method ReadArray(text: string) returns (result: Option<seq<string>>)
    ensures result == SplitArray(text)
  {
    var value := Trim(text);
    if |value| < 2 || value[0] != '[' || value[|value| - 1] != ']' { return None; }
    var body := value[1..|value| - 1];
    ghost var whole := Elements(body);
    var elements: seq<string> := [];
    assert whole.Some? ==> elements + whole.value == whole.value;
    while true
      invariant whole == if Elements(body).None? then None else Some(elements + Elements(body).value)
      decreases |body|
    {
      var comma := Find(body, ',');
      var element := Trim(body[..comma]);
      if element == "" { return None; }
      ghost var rest := if comma < |body| then Elements(body[comma + 1..]) else Some([]);
      assert rest.Some? ==> elements + ([element] + rest.value) == elements + [element] + rest.value;
      elements := elements + [element];
      if comma == |body| {
        assert whole == Some(elements);
        return if |elements| == BUS_COUNT then Some(elements) else None;
      }
      body := body[comma + 1..];
    }
  }

  function Join(xs: seq<string>): string
    requires xs != []
  {
    if |xs| == 1 then xs[0] else xs[0] + ", " + Join(xs[1..])
  }

  function ShowArray(xs: seq<string>): string
    requires xs != []
  {
    "[" + Join(xs) + "]"
  }

  /** Text that an array keeps apart. */
  predicate Element(x: string) { Tight(x) && NoComma(x) }

  predicate NoComma(s: string) { forall i :: 0 <= i < |s| ==> s[i] != ',' }

  lemma LastElement(body: string, x: string)
    requires NoComma(body) && Trim(body) == x != ""
    ensures Elements(body) == Some([x])
  {
    assert body[..|body|] == body;
  }

  lemma MoreElements(first: string, x: string, rest: string, xs: seq<string>)
    requires NoComma(first) && Trim(first) == x != "" && Elements(rest) == Some(xs)
    ensures Elements(first + [','] + rest) == Some([x] + xs)
  {
    FindIn(first, ',', rest);
  }

  lemma LeadNoComma(lead: string, x: string)
    requires NoComma(lead) && NoComma(x)
    ensures NoComma(lead + x)
  {
  }

  lemma LeadTrims(lead: string, x: string)
    requires (lead == "" || lead == " ") && Tight(x)
    ensures Trim(lead + x) == x != ""
  {
    TrimTight(x);
    if lead == "" { assert lead + x == x; }
  }

  lemma CommaSplit(lead: string, xs: seq<string>)
    requires |xs| > 1
    ensures lead + Join(xs) == (lead + xs[0]) + [','] + (" " + Join(xs[1..]))
  {
  }

  lemma {:induction false} ElementsRoundTrip(lead: string, xs: seq<string>)
    requires xs != [] && (lead == "" || lead == " ")
    requires forall i :: 0 <= i < |xs| ==> Element(xs[i])
    ensures Elements(lead + Join(xs)) == Some(xs)
    decreases |xs|
  {
    assert Element(xs[0]);
    if |xs| == 1 {
      LeadNoComma(lead, xs[0]);
      LeadTrims(lead, xs[0]);
      LastElement(lead + xs[0], xs[0]);
      assert xs == [xs[0]];
    } else {
      ElementsRoundTrip(" ", xs[1..]);
      OneMoreElement(lead, xs[0], " " + Join(xs[1..]), xs[1..]);
      CommaSplit(lead, xs);
      assert xs == [xs[0]] + xs[1..];
    }
  }

  lemma OneMoreElement(lead: string, x: string, rest: string, xs: seq<string>)
    requires (lead == "" || lead == " ") && Element(x) && Elements(rest) == Some(xs)
    ensures Elements((lead + x) + [','] + rest) == Some([x] + xs)
  {
    LeadNoComma(lead, x);
    LeadTrims(lead, x);
    MoreElements(lead + x, x, rest, xs);
  }

  lemma ArrayRoundTrip(xs: seq<string>)
    requires |xs| == BUS_COUNT && forall i :: 0 <= i < |xs| ==> Element(xs[i])
    ensures SplitArray(ShowArray(xs)) == Some(xs) && Tight(ShowArray(xs))
  {
    var shown := ShowArray(xs);
    TrimTight(shown);
    assert shown[1..|shown| - 1] == "" + Join(xs);
    ElementsRoundTrip("", xs);
  }

  // ---------------------------------------------------------------------------------------
  // Lines.
  // ---------------------------------------------------------------------------------------

  /** The lines `std::getline` delivers. */
  function Lines(text: string): seq<string>
    decreases |text|
  {
    if text == "" then []
    else
      var end := Find(text, '\n');
      if end == |text| then [text] else [text[..end]] + Lines(text[end + 1..])
  }

  function JoinLines(lines: seq<string>): string {
    if lines == [] then "" else lines[0] + "\n" + JoinLines(lines[1..])
  }

  predicate OneLine(line: string) { forall i :: 0 <= i < |line| ==> line[i] != '\n' }

  lemma {:induction false} LinesRoundTrip(lines: seq<string>)
    requires forall i :: 0 <= i < |lines| ==> OneLine(lines[i])
    ensures Lines(JoinLines(lines)) == lines
  {
    if lines != [] {
      var text := JoinLines(lines);
      assert OneLine(lines[0]);
      assert text == lines[0] + ['\n'] + JoinLines(lines[1..]);
      FindIn(lines[0], '\n', JoinLines(lines[1..]));
      assert text[..|lines[0]|] == lines[0];
      assert text[|lines[0]| + 1..] == JoinLines(lines[1..]);
      LinesRoundTrip(lines[1..]);
    }
  }

  // ---------------------------------------------------------------------------------------
  // Reading a configuration.
  // ---------------------------------------------------------------------------------------

  datatype LoadResult<G> =
    | Loaded(config: Config<G>)
    | Invalid(line: nat)
    | UnsupportedVersion
    | Missing
    | IoError(line: nat)

  /** What the file system answers: whether there is a file could be asked and the file opened,
      and whether reading went bad after the text it gave. */
  datatype FileAnswer = Unknown | Absent | Unopenable | Text(text: string, bad: bool)

  /** What has been read so far. */
  datatype Reading<G> = Reading(config: Config<G>, version: nat, seen: set<string>)

  function ReadGains<G>(g: GainText<G>, elements: seq<string>): Option<seq<G>> {
    if elements == [] then Some([])
    else
      var first, rest := g.read(Trim(elements[0])), ReadGains(g, elements[1..]);
      if first.None? || rest.None? then None else Some([first.value] + rest.value)
  }

  function ReadMutes(elements: seq<string>): Option<seq<bool>> {
    if elements == [] then Some([])
    else
      var first, rest := ParseBool(elements[0]), ReadMutes(elements[1..]);
      if first.None? || rest.None? then None else Some([first.value] + rest.value)
  }

  /** The value of a known key, or nothing if it is malformed; unknown keys change nothing. */
  function SetKey<G>(g: GainText<G>, r: Reading<G>, key: string, value: string): Option<Reading<G>> {
    var c := r.config;
    if key == "format_version" then
      var v := ParseUnsigned(value); if v.None? then None else Some(r.(version := v.value))
    else if key == "profile" then
      var v := ParseString(value); if v.None? then None else Some(r.(config := c.(profile := v.value)))
    else if key == "output" then
      var v := ParseString(value); if v.None? then None else Some(r.(config := c.(output := v.value)))
    else if key == "subsystems" then
      var v := ParseUnsigned(value);
      if v.None? then None else Some(r.(config := c.(subsystems := v.value, haveSubsystems := true)))
    else if key == "shaders" then
      var v := ParseBool(value); if v.None? then None else Some(r.(config := c.(shaders := v.value)))
    else if key == "hd" then
      var v := ParseBool(value); if v.None? then None else Some(r.(config := c.(hd := v.value)))
    else if key == "bus_gain" then
      var elements := SplitArray(value);
      var v := if elements.None? then None else ReadGains(g, elements.value);
      if v.None? then None else Some(r.(config := c.(gains := v.value)))
    else if key == "bus_muted" then
      var elements := SplitArray(value);
      var v := if elements.None? then None else ReadMutes(elements.value);
      if v.None? then None else Some(r.(config := c.(muted := v.value)))
    else Some(r)
  }

  function ReadKey<G>(g: GainText<G>, r: Reading<G>, key: string, value: string): Option<Reading<G>> {
    if key == "" || value == "" || key in r.seen then None
    else SetKey(g, r.(seen := r.seen + {key}), key, value)
  }

  function ReadLine<G>(g: GainText<G>, r: Reading<G>, line: string): Option<Reading<G>> {
    var text := Trim(line);
    if text == "" || text[0] == '#' then Some(r)
    else
      var equals := Find(text, '=');
      if equals == |text| then None
      else ReadKey(g, r, Trim(text[..equals]), Trim(text[equals + 1..]))
  }

  function ReadLines<G>(g: GainText<G>, r: Reading<G>, lines: seq<string>, n: nat): LoadResult<G>
    requires n <= |lines|
    decreases |lines| - n
  {
    if n == |lines| then
      if r.version > FORMAT_VERSION then UnsupportedVersion else Loaded(r.config)
    else
      var next := ReadLine(g, r, lines[n]);
      if next.None? then Invalid(n + 1) else ReadLines(g, next.value, lines, n + 1)
  }

  /** `defaults` is the configuration of a file that says nothing. */
  function Load<G>(g: GainText<G>, defaults: Config<G>, text: string): LoadResult<G> {
    ReadLines(g, Reading(defaults, 0, {}), Lines(text), 0)
  }

  /** A wrong line is reported before a reading fault, and that before a wrong version. */
  function LoadFile<G>(g: GainText<G>, defaults: Config<G>, file: FileAnswer): LoadResult<G> {
    match file
    case Unknown => IoError(0)
    case Absent => Missing
    case Unopenable => IoError(0)
    case Text(text, bad) =>
      var result := Load(g, defaults, text);
      if bad && !result.Invalid? then IoError(|Lines(text)|) else result
  }

  /** `player_config_load_checked`: the answers of the file system, then the line loop. */
  method LoadChecked<G>(g: GainText<G>, defaults: Config<G>, file: FileAnswer) returns (result: LoadResult<G>)
    ensures result == LoadFile(g, defaults, file)
  {
    if file.Unknown? { return IoError(0); }
    if file.Absent? { return Missing; }
    if file.Unopenable? { return IoError(0); }
    var lines := Lines(file.text);
    var reading := Reading(defaults, 0, {});
    var n := 0;
    while n < |lines|
      invariant 0 <= n <= |lines|
      invariant ReadLines(g, reading, lines, n) == Load(g, defaults, file.text)
    {
      var next := ReadLine(g, reading, lines[n]);
      if next.None? {
        BadLine(g, reading, lines, n);
        return Invalid(n + 1);
      }
      reading := next.value;
      n := n + 1;
    }
    if file.bad { return IoError(n); }
    if reading.version > FORMAT_VERSION { return UnsupportedVersion; }
    return Loaded(reading.config);
  }

  // ---------------------------------------------------------------------------------------
  // Printing one, and reading it back.
  // ---------------------------------------------------------------------------------------

  function Quoted(s: string): string { "\"" + Escape(s) + "\"" }

  function ShowGains<G>(g: GainText<G>, gains: seq<G>): (xs: seq<string>)
    ensures |xs| == |gains| && forall i :: 0 <= i < |xs| ==> xs[i] == g.show(gains[i])
  {
    seq(|gains|, i requires 0 <= i < |gains| => g.show(gains[i]))
  }

  function ShowMutes(muted: seq<bool>): (xs: seq<string>)
    ensures |xs| == |muted| && forall i :: 0 <= i < |xs| ==> xs[i] == ShowBool(muted[i])
  {
    seq(|muted|, i requires 0 <= i < |muted| => ShowBool(muted[i]))
  }

  function KeyLine(key: string, value: string): string { key + " = " + value }

  const NOTE_1: string := "# Configuracion " + "de AYTHER para " + "esta combinacion " + "de juego y pack."
  const NOTE_2: string := "# La escribe el " + "panel in-game; " + "se puede editar " + "a mano."

  /** Two notes, an empty line and the eight keys, in the order they are printed. */
  function PrintedLines<G>(g: GainText<G>, c: Config<G>): seq<string>
    requires |c.gains| == |c.muted| == BUS_COUNT
  {
    [NOTE_1, NOTE_2, "",
     KeyLine("format_version", Decimal(FORMAT_VERSION)),
     KeyLine("profile", Quoted(c.profile)),
     KeyLine("output", Quoted(c.output)),
     KeyLine("subsystems", Decimal(c.subsystems)),
     KeyLine("shaders", ShowBool(c.shaders)),
     KeyLine("hd", ShowBool(c.hd)),
     KeyLine("bus_gain", ShowArray(ShowGains(g, c.gains))),
     KeyLine("bus_muted", ShowArray(ShowMutes(c.muted)))]
  }

  function Print<G>(g: GainText<G>, c: Config<G>): string
    requires |c.gains| == |c.muted| == BUS_COUNT
  {
    JoinLines(PrintedLines(g, c))
  }

  /** The printed text of a gain is one array element on one line and reads back as the gain. */
  predicate GainOk<G(==)>(g: GainText<G>, x: G) {
    Element(g.show(x)) && OneLine(g.show(x)) && g.read(g.show(x)) == Some(x)
  }

  predicate Printable<G(==)>(g: GainText<G>, c: Config<G>) {
    && |c.gains| == |c.muted| == BUS_COUNT
    && c.subsystems <= MAX_U32
    && forall i :: 0 <= i < |c.gains| ==> GainOk(g, c.gains[i])
  }

  /** A key line is read as its key and its value. */
  lemma KeyLineRead<G>(g: GainText<G>, r: Reading<G>, key: string, value: string)
    requires Tight(key) && Tight(value) && key[0] != '#' && forall i :: 0 <= i < |key| ==> key[i] != '='
    ensures ReadLine(g, r, KeyLine(key, value)) == ReadKey(g, r, key, value)
  {
    KeyLineParts(key, value);
  }

  lemma KeyLineParts(key: string, value: string)
    requires Tight(key) && Tight(value) && forall i :: 0 <= i < |key| ==> key[i] != '='
    ensures var line := KeyLine(key, value);
            var equals := Find(line, '=');
            && Trim(line) == line != "" && line[0] == key[0] && equals < |line|
            && Trim(line[..equals]) == key && Trim(line[equals + 1..]) == value
  {
    KeyLineShape(key, value);
    TrimTight(KeyLine(key, value));
    TrimTight(key);
    TrimTight(value);
    FindIn(key + " ", '=', " " + value);
  }

  lemma KeyLineShape(key: string, value: string)
    requires Tight(key) && Tight(value)
    ensures KeyLine(key, value) == (key + " ") + ['='] + (" " + value)
    ensures Tight(KeyLine(key, value)) && KeyLine(key, value)[0] == key[0]
  {
  }

  lemma {:induction false} GainsRoundTrip<G>(g: GainText<G>, gains: seq<G>)
    requires forall i :: 0 <= i < |gains| ==> GainOk(g, gains[i])
    ensures ReadGains(g, ShowGains(g, gains)) == Some(gains)
  {
    if gains != [] {
      assert GainOk(g, gains[0]);
      TrimTight(g.show(gains[0]));
      assert ShowGains(g, gains)[1..] == ShowGains(g, gains[1..]);
      GainsRoundTrip(g, gains[1..]);
      assert gains == [gains[0]] + gains[1..];
    }
  }

  lemma {:induction false} MutesRoundTrip(muted: seq<bool>)
    ensures ReadMutes(ShowMutes(muted)) == Some(muted)
  {
    if muted != [] {
      BoolRoundTrip(muted[0]);
      assert ShowMutes(muted)[1..] == ShowMutes(muted[1..]);
      MutesRoundTrip(muted[1..]);
      assert muted == [muted[0]] + muted[1..];
    }
  }

  // One lemma a printed line: what reading it adds to what was read before.

  function Seen<G>(r: Reading<G>, key: string): Reading<G> { r.(seen := r.seen + {key}) }

  lemma CommentLine<G>(g: GainText<G>, r: Reading<G>, line: string)
    requires line == "" || (Tight(line) && line[0] == '#')
    ensures ReadLine(g, r, line) == Some(r)
  {
    if line != "" { TrimTight(line); }
  }

  lemma VersionLine<G>(g: GainText<G>, r: Reading<G>)
    requires "format_version" !in r.seen
    ensures ReadLine(g, r, KeyLine("format_version", Decimal(FORMAT_VERSION)))
            == Some(Seen(r, "format_version").(version := FORMAT_VERSION))
  {
    UnsignedRoundTrip(FORMAT_VERSION);
    KeyLineRead(g, r, "format_version", Decimal(FORMAT_VERSION));
  }

  lemma ProfileLine<G>(g: GainText<G>, r: Reading<G>, s: string)
    requires "profile" !in r.seen
    ensures ReadLine(g, r, KeyLine("profile", Quoted(s)))
            == if Clean(s) then Some(Seen(r, "profile").(config := r.config.(profile := s))) else None
  {
    QuotedRoundTrip(s);
    KeyLineRead(g, r, "profile", Quoted(s));
  }

  lemma OutputLine<G>(g: GainText<G>, r: Reading<G>, s: string)
    requires "output" !in r.seen
    ensures ReadLine(g, r, KeyLine("output", Quoted(s)))
            == if Clean(s) then Some(Seen(r, "output").(config := r.config.(output := s))) else None
  {
    QuotedRoundTrip(s);
    KeyLineRead(g, r, "output", Quoted(s));
  }

  lemma SubsystemsLine<G>(g: GainText<G>, r: Reading<G>, n: nat)
    requires "subsystems" !in r.seen && n <= MAX_U32
    ensures ReadLine(g, r, KeyLine("subsystems", Decimal(n)))
            == Some(Seen(r, "subsystems").(config := r.config.(subsystems := n, haveSubsystems := true)))
  {
    UnsignedRoundTrip(n);
    KeyLineRead(g, r, "subsystems", Decimal(n));
  }

  lemma ShadersLine<G>(g: GainText<G>, r: Reading<G>, b: bool)
    requires "shaders" !in r.seen
    ensures ReadLine(g, r, KeyLine("shaders", ShowBool(b)))
            == Some(Seen(r, "shaders").(config := r.config.(shaders := b)))
  {
    BoolRoundTrip(b);
    KeyLineRead(g, r, "shaders", ShowBool(b));
    assert "shaders"[0] != "profile"[0];
  }

  lemma HdLine<G>(g: GainText<G>, r: Reading<G>, b: bool)
    requires "hd" !in r.seen
    ensures ReadLine(g, r, KeyLine("hd", ShowBool(b))) == Some(Seen(r, "hd").(config := r.config.(hd := b)))
  {
    BoolRoundTrip(b);
    KeyLineRead(g, r, "hd", ShowBool(b));
  }

  lemma GainLine<G>(g: GainText<G>, r: Reading<G>, gains: seq<G>)
    requires "bus_gain" !in r.seen && |gains| == BUS_COUNT && forall i :: 0 <= i < |gains| ==> GainOk(g, gains[i])
    ensures ReadLine(g, r, KeyLine("bus_gain", ShowArray(ShowGains(g, gains))))
            == Some(Seen(r, "bus_gain").(config := r.config.(gains := gains)))
  {
    var value := ShowArray(ShowGains(g, gains));
    GainsSplit(g, gains);
    KeyLineRead(g, r, "bus_gain", value);
    GainIsItsOwnKey(g, Seen(r, "bus_gain"), value);
  }

  lemma GainsSplit<G>(g: GainText<G>, gains: seq<G>)
    requires |gains| == BUS_COUNT && forall i :: 0 <= i < |gains| ==> GainOk(g, gains[i])
    ensures SplitArray(ShowArray(ShowGains(g, gains))) == Some(ShowGains(g, gains))
    ensures Tight(ShowArray(ShowGains(g, gains))) && ReadGains(g, ShowGains(g, gains)) == Some(gains)
  {
    var xs := ShowGains(g, gains);
    forall i | 0 <= i < |xs| ensures Element(xs[i]) { assert GainOk(g, gains[i]); }
    ArrayRoundTrip(xs);
    GainsRoundTrip(g, gains);
  }

  lemma GainIsItsOwnKey<G>(g: GainText<G>, r: Reading<G>, value: string)
    requires SplitArray(value).Some? && ReadGains(g, SplitArray(value).value).Some?
    ensures SetKey(g, r, "bus_gain", value) ==
            Some(r.(config := r.config.(gains := ReadGains(g, SplitArray(value).value).value)))
  {
  }

  lemma MutedLine<G>(g: GainText<G>, r: Reading<G>, muted: seq<bool>)
    requires "bus_muted" !in r.seen && |muted| == BUS_COUNT
    ensures ReadLine(g, r, KeyLine("bus_muted", ShowArray(ShowMutes(muted))))
            == Some(Seen(r, "bus_muted").(config := r.config.(muted := muted)))
  {
    var value := ShowArray(ShowMutes(muted));
    MutesSplit(muted);
    KeyLineRead(g, r, "bus_muted", value);
    MutedIsItsOwnKey(g, Seen(r, "bus_muted"), value);
  }

  lemma MutesSplit(muted: seq<bool>)
    requires |muted| == BUS_COUNT
    ensures SplitArray(ShowArray(ShowMutes(muted))) == Some(ShowMutes(muted)) && Tight(ShowArray(ShowMutes(muted)))
    ensures ReadMutes(ShowMutes(muted)) == Some(muted)
  {
    var xs := ShowMutes(muted);
    forall i | 0 <= i < |xs| ensures Element(xs[i]) { assert xs[i] == ShowBool(muted[i]); }
    ArrayRoundTrip(xs);
    MutesRoundTrip(muted);
  }

  lemma MutedIsItsOwnKey<G>(g: GainText<G>, r: Reading<G>, value: string)
    requires SplitArray(value).Some? && ReadMutes(SplitArray(value).value).Some?
    ensures SetKey(g, r, "bus_muted", value) ==
            Some(r.(config := r.config.(muted := ReadMutes(SplitArray(value).value).value)))
  {
  }

  // The whole file.

  lemma KeyLineIsOneLine(key: string, value: string)
    requires OneLine(key) && OneLine(value)
    ensures OneLine(KeyLine(key, value))
  {
  }

  lemma {:induction false} JoinIsOneLine(xs: seq<string>)
    requires xs != [] && forall i :: 0 <= i < |xs| ==> OneLine(xs[i])
    ensures OneLine(Join(xs)) && OneLine(ShowArray(xs))
  {
    assert OneLine(xs[0]);
    if |xs| > 1 { JoinIsOneLine(xs[1..]); }
  }

  lemma ValuesAreOneLine<G>(g: GainText<G>, c: Config<G>)
    requires Printable(g, c)
    ensures OneLine(Quoted(c.profile)) && OneLine(Quoted(c.output)) && OneLine(Decimal(c.subsystems))
    ensures OneLine(ShowArray(ShowGains(g, c.gains))) && OneLine(ShowArray(ShowMutes(c.muted)))
  {
    EscapeHasNoNewline(c.profile);
    EscapeHasNoNewline(c.output);
    forall i | 0 <= i < |Decimal(c.subsystems)| ensures Decimal(c.subsystems)[i] != '\n' {
      assert Digit(Decimal(c.subsystems)[i]);
    }
    var gains, mutes := ShowGains(g, c.gains), ShowMutes(c.muted);
    forall i | 0 <= i < |gains| ensures OneLine(gains[i]) { assert GainOk(g, c.gains[i]); }
    JoinIsOneLine(gains);
    forall i | 0 <= i < |mutes| ensures OneLine(mutes[i]) { assert mutes[i] == ShowBool(c.muted[i]); }
    JoinIsOneLine(mutes);
  }

  lemma OneLineAppend(a: string, b: string)
    requires OneLine(a) && OneLine(b)
    ensures OneLine(a + b)
  {
  }

  lemma NotesAreOneLine()
    ensures OneLine(NOTE_1) && OneLine(NOTE_2)
  {
    OneLineAppend("# Configuracion ", "de AYTHER para ");
    OneLineAppend("# Configuracion " + "de AYTHER para ", "esta combinacion ");
    OneLineAppend("# Configuracion " + "de AYTHER para " + "esta combinacion ", "de juego y pack.");
    OneLineAppend("# La escribe el ", "panel in-game; ");
    OneLineAppend("# La escribe el " + "panel in-game; ", "se puede editar ");
    OneLineAppend("# La escribe el " + "panel in-game; " + "se puede editar ", "a mano.");
  }

  lemma NotesAreComments()
    ensures Tight(NOTE_1) && NOTE_1[0] == '#' && Tight(NOTE_2) && NOTE_2[0] == '#'
  {
    assert NOTE_1[0] == "# Configuracion "[0] && NOTE_1[|NOTE_1| - 1] == "de juego y pack."[15];
    assert NOTE_2[0] == "# La escribe el "[0] && NOTE_2[|NOTE_2| - 1] == "a mano."[6];
  }

  lemma PrintedIsLines<G>(g: GainText<G>, c: Config<G>)
    requires Printable(g, c)
    ensures Lines(Print(g, c)) == PrintedLines(g, c)
  {
    NotesAreOneLine();
    ValuesAreOneLine(g, c);
    KeyLineIsOneLine("format_version", Decimal(FORMAT_VERSION));
    KeyLineIsOneLine("profile", Quoted(c.profile));
    KeyLineIsOneLine("output", Quoted(c.output));
    KeyLineIsOneLine("subsystems", Decimal(c.subsystems));
    KeyLineIsOneLine("shaders", ShowBool(c.shaders));
    KeyLineIsOneLine("hd", ShowBool(c.hd));
    KeyLineIsOneLine("bus_gain", ShowArray(ShowGains(g, c.gains)));
    KeyLineIsOneLine("bus_muted", ShowArray(ShowMutes(c.muted)));
    LinesRoundTrip(PrintedLines(g, c));
  }

  lemma NextLine<G>(g: GainText<G>, r: Reading<G>, lines: seq<string>, n: nat, next: Reading<G>)
    requires n < |lines| && ReadLine(g, r, lines[n]) == Some(next)
    ensures ReadLines(g, r, lines, n) == ReadLines(g, next, lines, n + 1)
  {
  }

  lemma BadLine<G>(g: GainText<G>, r: Reading<G>, lines: seq<string>, n: nat)
    requires n < |lines| && ReadLine(g, r, lines[n]) == None
    ensures ReadLines(g, r, lines, n) == Invalid(n + 1)
  {
  }

  lemma NameKeys()
    ensures "profile" !in {"format_version"} && "output" !in {"format_version", "profile"}
    ensures {"format_version"} + {"profile"} == {"format_version", "profile"}
    ensures {"format_version", "profile"} + {"output"} == {"format_version", "profile", "output"}
  {
    assert "output"[0] != "format_version"[0] && "output"[0] != "profile"[0];
  }

  lemma LaterKeys()
    ensures "subsystems" !in {"format_version", "profile", "output"}
    ensures "shaders" !in {"format_version", "profile", "output"} + {"subsystems"}
    ensures "hd" !in {"format_version", "profile", "output"} + {"subsystems"} + {"shaders"}
  {
    assert "shaders"[0] != "profile"[0];
  }

  lemma ArrayKeys()
    ensures "bus_gain" !in {"format_version", "profile", "output"} + {"subsystems"} + {"shaders"} + {"hd"}
    ensures "bus_muted" !in {"format_version", "profile", "output"} + {"subsystems"} + {"shaders"} + {"hd"}
                            + {"bus_gain"}
  {
  }

  lemma ArraysRead<G>(g: GainText<G>, r: Reading<G>, c: Config<G>)
    requires Printable(g, c) && r.version == FORMAT_VERSION
    requires r.seen == {"format_version", "profile", "output"} + {"subsystems"} + {"shaders"} + {"hd"}
    ensures ReadLines(g, r, PrintedLines(g, c), 9) == Loaded(r.config.(gains := c.gains, muted := c.muted))
  {
    var lines := PrintedLines(g, c);
    ArrayKeys();
    GainLine(g, r, c.gains);
    var r10 := Seen(r, "bus_gain").(config := r.config.(gains := c.gains));
    NextLine(g, r, lines, 9, r10);
    MutedLine(g, r10, c.muted);
    var r11 := Seen(r10, "bus_muted").(config := r10.config.(muted := c.muted));
    NextLine(g, r10, lines, 10, r11);
  }

  lemma SwitchesRead<G>(g: GainText<G>, r: Reading<G>, c: Config<G>)
    requires Printable(g, c) && r.version == FORMAT_VERSION
    requires r.seen == {"format_version", "profile", "output"} + {"subsystems"}
    ensures ReadLines(g, r, PrintedLines(g, c), 7) ==
            Loaded(r.config.(shaders := c.shaders, hd := c.hd, gains := c.gains, muted := c.muted))
  {
    var lines := PrintedLines(g, c);
    LaterKeys();
    ShadersLine(g, r, c.shaders);
    var r8 := Seen(r, "shaders").(config := r.config.(shaders := c.shaders));
    NextLine(g, r, lines, 7, r8);
    HdLine(g, r8, c.hd);
    var r9 := Seen(r8, "hd").(config := r8.config.(hd := c.hd));
    NextLine(g, r8, lines, 8, r9);
    ArraysRead(g, r9, c);
  }

  /** Reading on after the strings: the rest of the file always reads. */
  lemma RestReads<G>(g: GainText<G>, r: Reading<G>, c: Config<G>)
    requires Printable(g, c) && r.seen == {"format_version", "profile", "output"} && r.version == FORMAT_VERSION
    ensures ReadLines(g, r, PrintedLines(g, c), 6) ==
            Loaded(c.(profile := r.config.profile, output := r.config.output, haveSubsystems := true))
  {
    var lines := PrintedLines(g, c);
    LaterKeys();
    SubsystemsLine(g, r, c.subsystems);
    var r7 := Seen(r, "subsystems").(config := r.config.(subsystems := c.subsystems, haveSubsystems := true));
    NextLine(g, r, lines, 6, r7);
    SwitchesRead(g, r7, c);
  }

  /** Loading what was saved gives the same configuration, with its subsystem mask set, exactly
      when the two names hold no control character but newline, carriage return and tab;
      otherwise the file is refused at the line of the first such name. */
  lemma RoundTrip<G>(g: GainText<G>, defaults: Config<G>, c: Config<G>)
    requires Printable(g, c)
    ensures Load(g, defaults, Print(g, c)) ==
            if !Clean(c.profile) then Invalid(5)
            else if !Clean(c.output) then Invalid(6)
            else Loaded(c.(haveSubsystems := true))
  {
    PrintedIsLines(g, c);
    var lines := PrintedLines(g, c);
    var r0 := Reading(defaults, 0, {});
    NotesAreComments();
    CommentLine(g, r0, lines[0]);
    NextLine(g, r0, lines, 0, r0);
    CommentLine(g, r0, lines[1]);
    NextLine(g, r0, lines, 1, r0);
    CommentLine(g, r0, lines[2]);
    NextLine(g, r0, lines, 2, r0);
    VersionLine(g, r0);
    var r4 := Seen(r0, "format_version").(version := FORMAT_VERSION);
    NextLine(g, r0, lines, 3, r4);
    StringsRead(g, r4, c);
  }

  lemma StringsRead<G>(g: GainText<G>, r: Reading<G>, c: Config<G>)
    requires Printable(g, c) && r.seen == {"format_version"} && r.version == FORMAT_VERSION
    ensures ReadLines(g, r, PrintedLines(g, c), 4) ==
            if !Clean(c.profile) then Invalid(5)
            else if !Clean(c.output) then Invalid(6)
            else Loaded(c.(haveSubsystems := true))
  {
    var lines := PrintedLines(g, c);
    assert lines[4] == KeyLine("profile", Quoted(c.profile));
    NameKeys();
    ProfileLine(g, r, c.profile);
    if Clean(c.profile) {
      var r5 := Seen(r, "profile").(config := r.config.(profile := c.profile));
      NextLine(g, r, lines, 4, r5);
      OutputReads(g, r5, c);
    } else {
      BadLine(g, r, lines, 4);
    }
  }

  lemma OutputReads<G>(g: GainText<G>, r: Reading<G>, c: Config<G>)
    requires Printable(g, c) && r.seen == {"format_version", "profile"} && r.version == FORMAT_VERSION
    requires r.config.profile == c.profile && Clean(c.profile)
    ensures ReadLines(g, r, PrintedLines(g, c), 5) ==
            if !Clean(c.output) then Invalid(6) else Loaded(c.(haveSubsystems := true))
  {
    NameKeys();
    OutputLine(g, r, c.output);
    if Clean(c.output) {
      var r6 := Seen(r, "output").(config := r.config.(output := c.output));
      OutputLineIs(g, c);
      NextLine(g, r, PrintedLines(g, c), 5, r6);
      RestReads(g, r6, c);
    } else {
      OutputLineIs(g, c);
      BadLine(g, r, PrintedLines(g, c), 5);
    }
  }

  lemma OutputLineIs<G>(g: GainText<G>, c: Config<G>)
    requires |c.gains| == |c.muted| == BUS_COUNT
    ensures |PrintedLines(g, c)| > 5 && PrintedLines(g, c)[5] == KeyLine("output", Quoted(c.output))
  {
  }

  // ---------------------------------------------------------------------------------------
  // Text written by hand.
  // ---------------------------------------------------------------------------------------

  /** A key without blanks at its ends, that starts no note and holds no equals sign. */
  predicate PlainKey(key: string) {
    Tight(key) && key[0] != '#' && forall i :: 0 <= i < |key| ==> key[i] != '='
  }

  /** The eight keys of the program. */
  predicate Known(key: string) {
    || key == "format_version" || key == "profile" || key == "output" || key == "subsystems"
    || key == "shaders" || key == "hd" || key == "bus_gain" || key == "bus_muted"
  }

  /** A key read once is refused the second time, known or not, whatever its value. */
  lemma DuplicateIsRefused<G>(g: GainText<G>, r: Reading<G>, key: string, first: string, second: string)
    requires PlainKey(key) && Tight(first) && Tight(second)
    requires ReadLine(g, r, KeyLine(key, first)).Some?
    ensures ReadLine(g, ReadLine(g, r, KeyLine(key, first)).value, KeyLine(key, second)) == None
  {
    KeyLineRead(g, r, key, first);
    KeyIsSeen(g, r, key, first);
    KeyLineRead(g, ReadLine(g, r, KeyLine(key, first)).value, key, second);
  }

  lemma KeyIsSeen<G>(g: GainText<G>, r: Reading<G>, key: string, value: string)
    requires ReadKey(g, r, key, value).Some?
    ensures key !in r.seen && ReadKey(g, r, key, value).value.seen == r.seen + {key}
  {
  }

  /** A key the program does not know is remembered and changes nothing. */
  lemma UnknownIsIgnored<G>(g: GainText<G>, r: Reading<G>, key: string, value: string)
    requires PlainKey(key) && Tight(value) && !Known(key) && key !in r.seen
    ensures ReadLine(g, r, KeyLine(key, value)) == Some(r.(seen := r.seen + {key}))
  {
    KeyLineRead(g, r, key, value);
  }

  /** Two readable lines with different keys can change places: the order of a file is free. */
  lemma LinesChangePlaces<G>(g: GainText<G>, r: Reading<G>, k: string, v: string, l: string, w: string)
    requires PlainKey(k) && PlainKey(l) && Tight(v) && Tight(w) && k != l
    requires ReadLine(g, r, KeyLine(k, v)).Some? && ReadLine(g, r, KeyLine(l, w)).Some?
    ensures var a, b := ReadLine(g, r, KeyLine(k, v)).value, ReadLine(g, r, KeyLine(l, w)).value;
            && ReadLine(g, a, KeyLine(l, w)).Some?
            && ReadLine(g, a, KeyLine(l, w)) == ReadLine(g, b, KeyLine(k, v))
  {
    KeyLineRead(g, r, k, v);
    KeyLineRead(g, r, l, w);
    var a, b := ReadKey(g, r, k, v).value, ReadKey(g, r, l, w).value;
    KeyLineRead(g, a, l, w);
    KeyLineRead(g, b, k, v);
    KeysChangePlaces(g, r, k, v, l, w);
  }

  lemma KeysChangePlaces<G>(g: GainText<G>, r: Reading<G>, k: string, v: string, l: string, w: string)
    requires k != l && ReadKey(g, r, k, v).Some? && ReadKey(g, r, l, w).Some?
    ensures var a, b := ReadKey(g, r, k, v).value, ReadKey(g, r, l, w).value;
            ReadKey(g, a, l, w).Some? && ReadKey(g, a, l, w) == ReadKey(g, b, k, v)
  {
    assert r.seen + {k} + {l} == r.seen + {l} + {k};
    ReadIsWrite(g, r, k, v);
    ReadIsWrite(g, r, l, w);
    WritesChangePlaces(g, r, k, v, l, w);
    ReadIsWrite(g, Written(g, r, k, v), l, w);
    ReadIsWrite(g, Written(g, r, l, w), k, v);
  }

  /** Whether the value of a key can be read, whatever was read before. */
  predicate Readable<G>(g: GainText<G>, key: string, value: string) {
    && key != "" && value != ""
    && (key == "format_version" || key == "subsystems" ==> ParseUnsigned(value).Some?)
    && (key == "profile" || key == "output" ==> ParseString(value).Some?)
    && (key == "shaders" || key == "hd" ==> ParseBool(value).Some?)
    && (key == "bus_gain" ==> SplitArray(value).Some? && ReadGains(g, SplitArray(value).value).Some?)
    && (key == "bus_muted" ==> SplitArray(value).Some? && ReadMutes(SplitArray(value).value).Some?)
  }

  /** What was read, with one more key: its own field is its value, every other as it was. */
  function Written<G>(g: GainText<G>, r: Reading<G>, key: string, value: string): Reading<G>
    requires Readable(g, key, value)
  {
    var c := r.config;
    Reading(
      Config(
        if key == "profile" then ParseString(value).value else c.profile,
        if key == "output" then ParseString(value).value else c.output,
        if key == "subsystems" then ParseUnsigned(value).value else c.subsystems,
        c.haveSubsystems || key == "subsystems",
        if key == "bus_gain" then ReadGains(g, SplitArray(value).value).value else c.gains,
        if key == "bus_muted" then ReadMutes(SplitArray(value).value).value else c.muted,
        if key == "shaders" then ParseBool(value).value else c.shaders,
        if key == "hd" then ParseBool(value).value else c.hd),
      if key == "format_version" then ParseUnsigned(value).value else r.version,
      r.seen + {key})
  }

  /** A key is read exactly when it is new and its value readable, and sets its own field alone. */
  lemma ReadIsWrite<G>(g: GainText<G>, r: Reading<G>, key: string, value: string)
    ensures ReadKey(g, r, key, value).Some? <==> key !in r.seen && Readable(g, key, value)
    ensures ReadKey(g, r, key, value).Some? ==> ReadKey(g, r, key, value) == Some(Written(g, r, key, value))
  {
  }

  lemma WritesChangePlaces<G>(g: GainText<G>, r: Reading<G>, k: string, v: string, l: string, w: string)
    requires k != l && Readable(g, k, v) && Readable(g, l, w)
    ensures Written(g, Written(g, r, k, v), l, w) == Written(g, Written(g, r, l, w), k, v)
  {
    assert r.seen + {k} + {l} == r.seen + {l} + {k};
  }

  /** Only the words true and false are switches, only decimal digits below 2^32 are numbers. */
  lemma Words(text: string)
    ensures ParseBool(text) == Some(true) <==> Trim(text) == "true"
    ensures ParseBool(text) == Some(false) <==> Trim(text) == "false"
    ensures ParseUnsigned(text).Some? <==>
              && Trim(text) != "" && (forall i :: 0 <= i < |Trim(text)| ==> '0' <= Trim(text)[i] <= '9')
              && DigitsValue(Trim(text)) < 0x1_0000_0000
  {
  }

  /** Digits count from the left, and the escapes are those of the printed text. */
  lemma KnownTexts()
    ensures DigitsValue("102") == 102
    ensures Escape("a\"\\\n\r\t") == "a" + "\\\"" + "\\\\" + "\\n" + "\\r" + "\\t"
  {
    assert "102"[..2] == "10" && "10"[..1] == "1" && "1"[..0] == "";
    assert DigitsValue("10") == 10;
    EscapeTwo('\n', '\r', "\t");
    assert "\t"[1..] == "";
    EscapeTwo('"', '\\', "\n\r\t");
    assert ("a" + "\"\\\n\r\t")[1..] == "\"\\\n\r\t";
  }

  lemma EscapeTwo(c: char, d: char, rest: string)
    ensures Escape([c, d] + rest) == EscapeChar(c) + (EscapeChar(d) + Escape(rest))
  {
    assert ([c, d] + rest)[1..] == [d] + rest;
    assert ([d] + rest)[1..] == rest;
  }

  /** A file that says only its version loads exactly up to version 1. */
  lemma VersionDecides<G>(g: GainText<G>, defaults: Config<G>, v: nat)
    requires v <= MAX_U32
    ensures Load(g, defaults, JoinLines([KeyLine("format_version", Decimal(v))])) ==
            if v <= 1 then Loaded(defaults) else UnsupportedVersion
  {
    var line := KeyLine("format_version", Decimal(v));
    UnsignedRoundTrip(v);
    DecimalIsOneLine(v);
    LinesRoundTrip([line]);
    var r := Reading(defaults, 0, {});
    VersionIsRead(g, r, v);
    NextLine(g, r, [line], 0, Seen(r, "format_version").(version := v));
  }

  lemma VersionIsRead<G>(g: GainText<G>, r: Reading<G>, v: nat)
    requires v <= MAX_U32 && "format_version" !in r.seen
    ensures ReadLine(g, r, KeyLine("format_version", Decimal(v))) == Some(Seen(r, "format_version").(version := v))
  {
    UnsignedRoundTrip(v);
    KeyLineRead(g, r, "format_version", Decimal(v));
  }

  lemma DecimalIsOneLine(v: nat)
    ensures OneLine(KeyLine("format_version", Decimal(v)))
  {
    KeyLineIsOneLine("format_version", Decimal(v));
  }
}
