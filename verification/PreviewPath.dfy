/**
 The paths a preview prints (backend/crates/json-output/src/preview.rs) and how the projection
 reads them back (projection.rs): the printer, a reader for names and `[*]` under two grammars,
 and the operator suffixes `.count` and `.length`.
 */
module PreviewPath {
  import opened Wrappers
  import opened Text

  datatype Step = Name(key: string) | Wild

  // ---------- printing ----------

  predicate NameFirst(c: char) { c == '_' || IsAlpha(c) }
  predicate NameChar(c: char) { c == '_' || IsAlpha(c) || IsDigit(c) }

  predicate DotNameAllowed(name: string) {
    name != "" && NameFirst(name[0]) && forall i | 1 <= i < |name| :: NameChar(name[i])
  }

  function ReplaceChar(s: string, c: char, by0: string): string {
    if s == "" then ""
    else (if s[0] == c then by0 else [s[0]]) + ReplaceChar(s[1..], c, by0)
  }

  /** First every reverse solidus is doubled, then every quote is escaped. */
  function EscapeName(name: string): string {
    ReplaceChar(ReplaceChar(name, '\\', "\\\\"), '\'', "\\'")
  }

  function NameSegment(name: string): string {
    if DotNameAllowed(name) then "." + name else "['" + EscapeName(name) + "']"
  }

  function Segment(step: Step): string {
    match step
    case Name(key) => NameSegment(key)
    case Wild => "[*]"
  }

  function Segments(steps: seq<Step>): string {
    if steps == [] then "" else Segments(steps[..|steps| - 1]) + Segment(steps[|steps| - 1])
  }

  /** The text a preview path is keyed by. */
  function Print(steps: seq<Step>): string {
    "$" + Segments(steps)
  }

  // ---------- reading ----------

  /** Printed: what undoes the printer. Rfc: well-formed RFC 9535 queries made of shorthand names,
      single-quoted names and `[*]` (sections 2.3.1.1, 2.3.2.1 and 2.5.1.1), where a quoted name
      holds no raw control character and only the listed escapes. */
  datatype Grammar = Printed | Rfc

  predicate ShorthandFirst(c: char) { NameFirst(c) || c as int >= 0x80 }
  predicate ShorthandChar(c: char) { NameChar(c) || c as int >= 0x80 }

  /** The longest run of name characters. */
  function NameRun(s: string): (n: nat)
    ensures n <= |s|
  {
    if s != "" && ShorthandChar(s[0]) then 1 + NameRun(s[1..]) else 0
  }

  function HexDigit(c: char): (r: Option<nat>)
    ensures r.Some? ==> r.value < 16
  {
    if IsDigit(c) then Some(c as int - '0' as int)
    else if 'a' <= c <= 'f' then Some(10 + c as int - 'a' as int)
    else if 'A' <= c <= 'F' then Some(10 + c as int - 'A' as int)
    else None
  }

  /** Four hexadecimal digits. */
  function Hex4(s: string): (r: Option<nat>)
    ensures r.Some? ==> |s| >= 4 && r.value < 0x1_0000
  {
    if |s| < 4 then None
    else
      match (HexDigit(s[0]), HexDigit(s[1]), HexDigit(s[2]), HexDigit(s[3]))
      case (Some(a), Some(b), Some(c), Some(d)) =>
        Some(((a * 16 + b) * 16 + c) * 16 + d)
      case _ => None
  }

  /** `uXXXX`, or a surrogate pair of them: the character and how much was read. */
  function ReadUnicode(s: string): (r: Option<(char, nat)>)
    ensures r.Some? ==> 0 < r.value.1 <= |s|
  {
    if s == "" || s[0] != 'u' then None
    else
      match Hex4(s[1..])
      case None => None
      case Some(n) =>
        if n < 0xD800 || 0xE000 <= n then Some((n as char, 5))
        else if 0xDC00 <= n || !StartsWith(s[5..], "\\u") then None
        else
          match Hex4(s[7..])
          case Some(m) =>
            if 0xDC00 <= m < 0xE000 then Some(((0x1_0000 + (n - 0xD800) * 0x400 + (m - 0xDC00)) as char, 11)) else None
          case None => None
  }

  /** What follows a reverse solidus: the character it stands for and how much was read. */
  function ReadEscape(s: string, g: Grammar): (r: Option<(char, nat)>)
    ensures r.Some? ==> 0 < r.value.1 <= |s|
  {
    if s == "" then None
    else if g.Printed? then Some((s[0], 1))
    else
      match s[0]
      case '\'' => Some(('\'', 1))
      case '\\' => Some(('\\', 1))
      case '/' => Some(('/', 1))
      case 'b' => Some((8 as char, 1))
      case 't' => Some((9 as char, 1))
      case 'n' => Some((10 as char, 1))
      case 'f' => Some((12 as char, 1))
      case 'r' => Some((13 as char, 1))
      case _ => ReadUnicode(s)
  }

  /** A quoted name up to its closing quote, escapes undone, and the text after it. */
  function ReadQuoted(s: string, g: Grammar): (r: Option<(string, string)>)
    ensures r.Some? ==> |r.value.1| < |s|
    decreases |s|
  {
    if s == "" then None
    else if s[0] == '\'' then Some(("", s[1..]))
    else if s[0] == '\\' then
      match ReadEscape(s[1..], g)
      case None => None
      case Some((c, n)) =>
        match ReadQuoted(s[1 + n..], g)
        case None => None
        case Some((name, rest)) => Some(([c] + name, rest))
    else if g.Rfc? && s[0] < ' ' then None
    else
      match ReadQuoted(s[1..], g)
      case None => None
      case Some((name, rest)) => Some(([s[0]] + name, rest))
  }

  function ReadSegments(s: string, g: Grammar): Option<seq<Step>>
    decreases |s|
  {
    if s == "" then Some([])
    else if s[0] == '.' then
      var n := NameRun(s[1..]);
      if n == 0 || !ShorthandFirst(s[1]) then None
      else Prepend(Name(s[1..1 + n]), ReadSegments(s[1 + n..], g))
    else if StartsWith(s, "[*]") then Prepend(Wild, ReadSegments(s[3..], g))
    else if StartsWith(s, "['") then
      match ReadQuoted(s[2..], g)
      case None => None
      case Some((name, rest)) =>
        if StartsWith(rest, "]") then Prepend(Name(name), ReadSegments(rest[1..], g)) else None
    else None
  }

  function Prepend(step: Step, rest: Option<seq<Step>>): Option<seq<Step>> {
    if rest == None then None else Some([step] + rest.value)
  }

  function Parse(text: string, g: Grammar): Option<seq<Step>> {
    if StartsWith(text, "$") then ReadSegments(text[1..], g) else None
  }

  /** No character below U+0020. */
  predicate NoControl(key: string) {
    forall i | 0 <= i < |key| :: key[i] >= ' '
  }

  predicate Readable(step: Step, g: Grammar) {
    g.Rfc? && step.Name? ==> NoControl(step.key)
  }

  predicate AllReadable(steps: seq<Step>, g: Grammar) {
    forall i | 0 <= i < |steps| :: Readable(steps[i], g)
  }

  // ---------- the printer is reversible ----------

  /** The two replacement passes together escape each character once. */
  function Escape(name: string): string {
    if name == "" then "" else EscapedChar(name[0]) + Escape(name[1..])
  }

  function EscapedChar(c: char): string {
    if c == '\\' || c == '\'' then ['\\', c] else [c]
  }

  lemma {:induction false} ReplaceConcat(a: string, b: string, c: char, by0: string)
    ensures ReplaceChar(a + b, c, by0) == ReplaceChar(a, c, by0) + ReplaceChar(b, c, by0)
  {
    if a == "" {
      assert a + b == b;
    } else {
      assert (a + b)[1..] == a[1..] + b;
      ReplaceConcat(a[1..], b, c, by0);
    }
  }

  lemma {:induction false} EscapeNameIsEscape(name: string)
    ensures EscapeName(name) == Escape(name)
  {
    if name != "" {
      var head := if name[0] == '\\' then "\\\\" else [name[0]];
      var rest := ReplaceChar(name[1..], '\\', "\\\\");
      ReplaceConcat(head, rest, '\'', "\\'");
      EscapeNameIsEscape(name[1..]);
      assert head[1..] == if name[0] == '\\' then "\\" else "";
      assert head[1..] != "" ==> head[1..][1..] == "";
    }
  }

  lemma ReadableHead(name: string, g: Grammar)
    requires name != ""
    ensures Readable(Name(name), g) <==> (g.Rfc? ==> name[0] >= ' ') && Readable(Name(name[1..]), g)
  {
    assert name == [name[0]] + name[1..];
  }

  /** One character of an escaped name, and the rest of it. */
  lemma ReadEscapedHead(c: char, tail: string, g: Grammar)
    ensures var s := EscapedChar(c) + tail;
            var rest := ReadQuoted(tail, g);
            ReadQuoted(s, g)
            == if rest == None || (g.Rfc? && c < ' ') then None else Some(([c] + rest.value.0, rest.value.1))
  {
    var s := EscapedChar(c) + tail;
    if c == '\\' || c == '\'' {
      assert s[0] == '\\' && s[1..] == [c] + tail && s[1 + 1..] == tail;
    } else {
      assert s[0] == c && s[1..] == tail;
    }
  }

  /** An escaped, closed name as its first character, escaped, and the rest. */
  lemma EscapedSplit(name: string, rest: string)
    requires name != ""
    ensures Escape(name) + "'" + rest == EscapedChar(name[0]) + (Escape(name[1..]) + "'" + rest)
    ensures name == [name[0]] + name[1..]
  {
    hide EscapedChar;
    var head, tail := EscapedChar(name[0]), Escape(name[1..]);
    assert Escape(name) == head + tail;
    hide Escape;
    assert (head + tail) + "'" + rest == head + (tail + "'" + rest);
  }

  lemma {:induction false} ReadEscaped(name: string, rest: string, g: Grammar)
    ensures ReadQuoted(Escape(name) + "'" + rest, g) == if Readable(Name(name), g) then Some((name, rest)) else None
  {
    if name == "" {
      assert (Escape(name) + "'" + rest)[1..] == rest;
    } else {
      hide Readable, Escape, EscapedChar, ReadQuoted;
      EscapedSplit(name, rest);
      ReadEscaped(name[1..], rest, g);
      ReadableHead(name, g);
      ReadEscapedHead(name[0], Escape(name[1..]) + "'" + rest, g);
    }
  }

  ghost predicate SegmentBoundary(s: string) {
    s != "" ==> s[0] == '.' || s[0] == '['
  }

  lemma {:induction false} NameRunStops(name: string, rest: string)
    requires SegmentBoundary(rest) && forall i | 0 <= i < |name| :: NameChar(name[i])
    ensures NameRun(name + rest) == |name|
  {
    if name != "" {
      assert (name + rest)[1..] == name[1..] + rest;
      NameRunStops(name[1..], rest);
    } else {
      assert name + rest == rest;
    }
  }

  lemma ReadWild(rest: string, g: Grammar)
    ensures ReadSegments("[*]" + rest, g) == Prepend(Wild, ReadSegments(rest, g))
  {
    var s := "[*]" + rest;
    assert s[..3] == "[*]" && s[3..] == rest;
  }

  lemma ReadDotted(key: string, rest: string, g: Grammar)
    requires DotNameAllowed(key) && SegmentBoundary(rest)
    ensures ReadSegments("." + key + rest, g) == Prepend(Name(key), ReadSegments(rest, g))
  {
    var s := "." + key + rest;
    assert s[1..] == key + rest;
    NameRunStops(key, rest);
    assert s[1..1 + |key|] == key && s[1 + |key|..] == rest;
  }

  lemma ReadBracketed(key: string, rest: string, g: Grammar)
    ensures ReadSegments("['" + Escape(key) + "']" + rest, g)
            == if Readable(Name(key), g) then Prepend(Name(key), ReadSegments(rest, g)) else None
  {
    hide Escape, ReadQuoted, ReadSegments, Readable;
    var s := "['" + Escape(key) + "']" + rest;
    assert s[..2] == "['";
    assert s[2..] == Escape(key) + "'" + ("]" + rest);
    ReadEscaped(key, "]" + rest, g);
    BracketStep(s, key, rest, g);
  }

  lemma BracketStep(s: string, key: string, rest: string, g: Grammar)
    requires StartsWith(s, "['")
    ensures ReadQuoted(s[2..], g) == Some((key, "]" + rest)) ==>
              ReadSegments(s, g) == Prepend(Name(key), ReadSegments(rest, g))
    ensures ReadQuoted(s[2..], g) == None ==> ReadSegments(s, g) == None
  {
    hide ReadQuoted;
    assert s[0] == s[..2][0] == '[' && s[1] == s[..2][1] == '\'';
    assert |s| >= 3 ==> s[..3][1] == '\'';
    assert ("]" + rest)[..1] == "]" && ("]" + rest)[1..] == rest;
  }

  lemma ReadSegment(step: Step, rest: string, g: Grammar)
    requires SegmentBoundary(rest)
    ensures ReadSegments(Segment(step) + rest, g)
            == if Readable(step, g) then Prepend(step, ReadSegments(rest, g)) else None
  {
    hide ReadSegments, EscapeName, Escape;
    match step
    case Wild => ReadWild(rest, g);
    case Name(key) =>
      if DotNameAllowed(key) {
        ReadDotted(key, rest, g);
        assert NoControl(key);
      } else {
        EscapeNameIsEscape(key);
        ReadBracketed(key, rest, g);
      }
  }

  lemma BoundaryAtSegment(step: Step, rest: string)
    ensures SegmentBoundary(Segment(step) + rest)
  {
  }

  lemma {:induction false} ReadPrinted(steps: seq<Step>, rest: string, g: Grammar)
    requires SegmentBoundary(rest) && ReadSegments(rest, g).Some?
    ensures AllReadable(steps, g) ==>
              ReadSegments(Segments(steps) + rest, g) == Some(steps + ReadSegments(rest, g).value)
  {
    hide ReadSegments, NameSegment, Readable;
    if steps == [] {
      assert Segments(steps) + rest == rest;
      assert steps + ReadSegments(rest, g).value == ReadSegments(rest, g).value;
    } else if AllReadable(steps, g) {
      var init, last := steps[..|steps| - 1], steps[|steps| - 1];
      ReadSegment(last, rest, g);
      BoundaryAtSegment(last, rest);
      ReadPrinted(init, Segment(last) + rest, g);
      assert Segments(steps) + rest == Segments(init) + (Segment(last) + rest);
      assert init + ([last] + ReadSegments(rest, g).value) == steps + ReadSegments(rest, g).value;
    }
  }

  /** A segment the grammar refuses spoils every path it is in. */
  lemma {:induction false} RefusedStays(steps: seq<Step>, rest: string, g: Grammar)
    requires SegmentBoundary(rest)
    ensures ReadSegments(rest, g) == None || !AllReadable(steps, g) ==> ReadSegments(Segments(steps) + rest, g) == None
  {
    hide ReadSegments, NameSegment, Readable;
    if steps == [] {
      assert Segments(steps) + rest == rest;
    } else {
      var init, last := steps[..|steps| - 1], steps[|steps| - 1];
      assert AllReadable(steps, g) <==> AllReadable(init, g) && Readable(last, g);
      hide AllReadable, Segment;
      ReadSegment(last, rest, g);
      BoundaryAtSegment(last, rest);
      RefusedStays(init, Segment(last) + rest, g);
      assert Segments(steps) == Segments(init) + Segment(last);
      assert Segments(steps) + rest == Segments(init) + (Segment(last) + rest);
    }
  }

  /** What reading a printed path gives, under either grammar: its steps, or nothing when the
      grammar refuses one of its keys. */
  lemma ReadBack(steps: seq<Step>, g: Grammar)
    ensures Parse(Print(steps), g) == if AllReadable(steps, g) then Some(steps) else None
  {
    ReadPrinted(steps, "", g);
    RefusedStays(steps, "", g);
    hide AllReadable, Segments;
    assert Print(steps)[1..] == Segments(steps) == Segments(steps) + "";
    assert Print(steps)[..1] == "$";
    assert steps + [] == steps;
  }

  /** The printer is reversible: for every sequence of keys and wildcards. */
  lemma ParsePrint(steps: seq<Step>)
    ensures Parse(Print(steps), Printed) == Some(steps)
  {
    ReadBack(steps, Printed);
  }

  /** So no two locations share a printed path. */
  lemma PrintInjective(a: seq<Step>, b: seq<Step>)
    requires Print(a) == Print(b)
    ensures a == b
  {
    ParsePrint(a);
    ParsePrint(b);
  }

  ghost predicate HasControlKey(steps: seq<Step>) {
    exists i | 0 <= i < |steps| :: steps[i].Name? && !NoControl(steps[i].key)
  }

  /** A printed path is a well-formed query exactly when no key on it holds a control character
      below U+0020, and then it is the query of its own steps. */
  lemma PrintedPathIsQuery(steps: seq<Step>)
    ensures Parse(Print(steps), Rfc) == if HasControlKey(steps) then None else Some(steps)
  {
    hide Parse, Print;
    ReadBack(steps, Rfc);
  }

  // ---------- reading a printed path back as a projection ----------

  datatype Operator = Count | Length

  function StripSuffix(path: string, suffix: string): Option<string> {
    if EndsWith(path, suffix) && |path| > |suffix| then Some(path[..|path| - |suffix|]) else None
  }

  /** `split_jsonpath_operator` */
  function SplitOperator(path: string): (string, Option<Operator>) {
    if StripSuffix(path, ".count()").Some? then (StripSuffix(path, ".count()").value, Some(Count))
    else if StripSuffix(path, ".count").Some? then (StripSuffix(path, ".count").value, Some(Count))
    else if StripSuffix(path, ".length()").Some? then (StripSuffix(path, ".length()").value, Some(Length))
    else if StripSuffix(path, ".length").Some? then (StripSuffix(path, ".length").value, Some(Length))
    else (path, None)
  }

  /** The last character and the third to last tell the four words apart. */
  lemma WordEndings(word: string)
    requires word in {".count", ".count()", ".length", ".length()"}
    ensures |word| >= 6
    ensures word == ".count" <==> word[|word| - 1] == 't'
    ensures word == ".length" <==> word[|word| - 1] == 'h'
    ensures word == ".count()" <==> word[|word| - 1] == ')' && word[|word| - 3] == 't'
    ensures word == ".length()" <==> word[|word| - 1] == ')' && word[|word| - 3] == 'h'
  {
  }

  lemma EndingAt(path: string, suffix: string, k: nat)
    requires k < |suffix|
    ensures EndsWith(path, suffix) ==> path[|path| - 1 - k] == suffix[|suffix| - 1 - k]
  {
  }

  lemma DifferentWord(path: string, word: string, other: string)
    requires EndsWith(path, word) && word != other
    requires word in {".count", ".count()", ".length", ".length()"}
    requires other in {".count", ".count()", ".length", ".length()"}
    ensures !EndsWith(path, other)
  {
    WordEndings(word);
    WordEndings(other);
    EndingAt(path, word, 0);
    EndingAt(path, word, 2);
    EndingAt(path, other, 0);
    EndingAt(path, other, 2);
    hide EndsWith;
  }

  lemma OperatorWord(base: string, word: string)
    requires base != "" && word in {".count", ".count()", ".length", ".length()"}
    ensures SplitOperator(base + word)
            == (base, Some(if word == ".count" || word == ".count()" then Count else Length))
  {
    var path := base + word;
    assert path[|base|..] == word && path[..|base|] == base;
    forall w | w in {".count", ".count()", ".length", ".length()"} && w != word ensures !EndsWith(path, w) {
      DifferentWord(path, word, w);
    }
  }

  /** An operator word at the end is taken off; a path that ends in none of the four stays whole. */
  lemma SplitOperatorIs(base: string, word: string)
    requires base != ""
    ensures word in {".count", ".count()"} ==> SplitOperator(base + word) == (base, Some(Count))
    ensures word in {".length", ".length()"} ==> SplitOperator(base + word) == (base, Some(Length))
    ensures SplitOperator(base).1 == None
            <==> forall w <- {".count", ".count()", ".length", ".length()"} :: EndsWith(base, w) ==> base == w
  {
    if word in {".count", ".count()", ".length", ".length()"} {
      hide SplitOperator, StripSuffix;
      OperatorWord(base, word);
    }
  }

  lemma NotASuffix(path: string, suffix: string)
    requires path != "" && suffix != "" && path[|path| - 1] != suffix[|suffix| - 1]
    ensures !EndsWith(path, suffix)
  {
  }

  /** A dotted word ends a printed path only as its last step. */
  lemma DotSuffix(prefix: string, name: string, word: string)
    requires '.' !in name && '.' !in word && word != "" && name != ""
    ensures EndsWith(prefix + "." + name, "." + word) <==> name == word
  {
    var path, suffix := prefix + "." + name, "." + word;
    assert path[|prefix|] == '.';
    assert path[|prefix| + 1..] == name;
    assert forall i | |prefix| < i < |path| :: path[i] == name[i - |prefix| - 1];
    assert suffix[0] == '.' && suffix[1..] == word;
    assert forall i | 0 < i < |suffix| :: suffix[i] == word[i - 1];
    var at := |path| - |suffix|;
    assert EndsWith(path, suffix) ==> path[at..] == suffix && path[at] == '.';
    if name == word {
      assert path[|path| - |suffix|..] == suffix;
    }
  }

  predicate EndsInOperatorWord(steps: seq<Step>) {
    steps != [] && (steps[|steps| - 1] == Name("count") || steps[|steps| - 1] == Name("length"))
  }

  /** A printed path is taken as it stands, with no operator, exactly when its last step is not
      the key "count" or "length". */
  lemma PrintedPathHasNoOperator(steps: seq<Step>)
    ensures SplitOperator(Print(steps)) == (Print(steps), None) <==> !EndsInOperatorWord(steps)
  {
    var path := Print(steps);
    if steps != [] {
      var prefix, last := "$" + Segments(steps[..|steps| - 1]), steps[|steps| - 1];
      assert path == prefix + Segment(last);
      hide SplitOperator, Segments, EscapeName, Print;
      if last.Name? && DotNameAllowed(last.key) {
        assert path == prefix + "." + last.key;
        DottedPathOperator(prefix, last.key);
      } else {
        BracketedPathOperator(prefix, last);
      }
    } else {
      NoOperatorAt(path);
    }
  }

  lemma BracketedPathOperator(prefix: string, last: Step)
    requires last.Name? ==> !DotNameAllowed(last.key)
    ensures var path := prefix + Segment(last);
            SplitOperator(path) == (path, None) && last != Name("count") && last != Name("length")
  {
    var path := prefix + Segment(last);
    assert DotNameAllowed("count") && DotNameAllowed("length");
    hide SplitOperator, DotNameAllowed, EscapeName;
    assert path[|path| - 1] == Segment(last)[|Segment(last)| - 1] == ']';
    NoOperatorAt(path);
  }

  lemma DottedPathOperator(prefix: string, key: string)
    requires DotNameAllowed(key) && prefix != ""
    ensures var path := prefix + "." + key;
            SplitOperator(path) == (path, None) <==> key != "count" && key != "length"
  {
    var path := prefix + "." + key;
    assert path[|path| - 1] == key[|key| - 1] != ')';
    NotASuffix(path, ".count()");
    NotASuffix(path, ".length()");
    DotSuffix(prefix, key, "count");
    DotSuffix(prefix, key, "length");
    assert ".count" == "." + "count" && ".length" == "." + "length";
  }

  lemma NoOperatorAt(path: string)
    requires path != "" && path[|path| - 1] !in {'t', 'h', ')'}
    ensures SplitOperator(path) == (path, None)
  {
    NotASuffix(path, ".count()");
    NotASuffix(path, ".count");
    NotASuffix(path, ".length()");
    NotASuffix(path, ".length");
  }
}
