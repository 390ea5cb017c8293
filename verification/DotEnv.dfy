/** internal/config/env.go: the dotenv parser. Lines come from a scanner without a length limit. */
module DotEnv {
  import opened Domain
  import opened Text

  datatype ParseError = UnclosedDouble | UnclosedSingle | TrailingCharacters

  // ---- Values -------------------------------------------------------------------------------

  /** A double-quoted body read up to its closing quote: the value and the bytes consumed. */
  datatype Scan = Unclosed | Closed(value: string, used: nat)

  function Prepend(p: string, n: nat, s: Scan): Scan {
    match s
    case Unclosed => Unclosed
    case Closed(v, used) => Closed(p + v, n + used)
  }

  function Unescape(c: char): string {
    if c == 'n' then "\n" else if c == 'r' then "\r" else if c == 't' then "\t"
    else if c == '"' || c == '\\' || c == '$' then [c] else ['\\', c]
  }

  function ScanQuoted(s: string, escaped: bool): (r: Scan)
    ensures r.Closed? ==> r.used <= |s|
  {
    if s == "" then Unclosed
    else if escaped then Prepend(Unescape(s[0]), 1, ScanQuoted(s[1..], false))
    else if s[0] == '\\' then Prepend("", 1, ScanQuoted(s[1..], true))
    else if s[0] == '"' then Closed("", 1)
    else Prepend([s[0]], 1, ScanQuoted(s[1..], false))
  }

  /** After a closing quote only a comment may follow. */
  predicate OnlyComment(s: string) {
    var t := TrimSpace(s);
    t == "" || HasPrefix(t, "#")
  }

  predicate CommentAt(s: string, i: nat) { 0 < i < |s| && s[i] == '#' && (s[i - 1] == ' ' || s[i - 1] == '\t') }

  /** The part of an unquoted value before its comment. */
  function BeforeComment(s: string, from: nat): (r: string)
    requires from <= |s|
    decreases |s| - from
  {
    if from == |s| then s else if CommentAt(s, from) then s[..from] else BeforeComment(s, from + 1)
  }

  function DoubleQuoted(val: string): Result<string, ParseError>
    requires val != ""
  {
    match ScanQuoted(val[1..], false)
    case Unclosed => Err(UnclosedDouble)
    case Closed(v, used) => if OnlyComment(val[1 + used..]) then Ok(v) else Err(TrailingCharacters)
  }

  function SingleQuoted(val: string): Result<string, ParseError>
    requires val != ""
  {
    var end := IndexOf(val[1..], '\'');
    if end == |val| - 1 then Err(UnclosedSingle)
    else if OnlyComment(val[2 + end..]) then Ok(val[1..1 + end]) else Err(TrailingCharacters)
  }

  function Unquoted(val: string): string { TrimSpace(BeforeComment(val, 0)) }

  function Value(raw: string): Result<string, ParseError> {
    var val := TrimSpace(raw);
    if val == "" then Ok("")
    else if val[0] == '"' then DoubleQuoted(val)
    else if val[0] == '\'' then SingleQuoted(val)
    else Ok(Unquoted(val))
  }

  /** parseValue; the loops are in the two methods below, their index never passes the end. */
  method ParseValue(raw: string) returns (r: Result<string, ParseError>)
    ensures r == Value(raw)
  {
    var val := TrimSpace(raw);
    if val == "" { return Ok(""); }
    if HasPrefix(val, "\"") {
      r := ParseDouble(val);
      return r;
    }
    if HasPrefix(val, "'") {
      var end := IndexOf(val[1..], '\'');
      if end == |val[1..]| { return Err(UnclosedSingle); }
      var content := val[1..1 + end];
      if !OnlyComment(val[1 + end + 1..]) { return Err(TrailingCharacters); }
      return Ok(content);
    }
    var plain := ParsePlain(val);
    return Ok(plain);
  }

  lemma PrependTwice(a: string, n: nat, b: string, m: nat, s: Scan)
    ensures Prepend(a, n, Prepend(b, m, s)) == Prepend(a + b, n + m, s)
  {
    if s.Closed? { assert a + (b + s.value) == (a + b) + s.value; }
  }

  lemma ScanSteps(sb: string, n: nat, s: string)
    requires s != ""
    ensures Prepend(sb, n, ScanQuoted(s, true)) == Prepend(sb + Unescape(s[0]), n + 1, ScanQuoted(s[1..], false))
    ensures s[0] == '\\' ==> Prepend(sb, n, ScanQuoted(s, false)) == Prepend(sb, n + 1, ScanQuoted(s[1..], true))
    ensures s[0] == '"' ==> Prepend(sb, n, ScanQuoted(s, false)) == Closed(sb, n + 1)
    ensures s[0] != '\\' && s[0] != '"' ==>
              Prepend(sb, n, ScanQuoted(s, false)) == Prepend(sb + [s[0]], n + 1, ScanQuoted(s[1..], false))
  {
    PrependTwice(sb, n, Unescape(s[0]), 1, ScanQuoted(s[1..], false));
    PrependTwice(sb, n, "", 1, ScanQuoted(s[1..], true));
    PrependTwice(sb, n, [s[0]], 1, ScanQuoted(s[1..], false));
    assert sb + "" == sb;
  }

  method ParseDouble(val: string) returns (r: Result<string, ParseError>)
    requires val != ""
    ensures r == DoubleQuoted(val)
  {
    var sb := "";
    var escaped, closed := false, false;
    var i := 1;
    ghost var scan := ScanQuoted(val[1..], false);
    while i < |val|
      invariant 1 <= i <= |val| && !closed
      invariant scan == Prepend(sb, i - 1, ScanQuoted(val[i..], escaped))
    {
      var ch := val[i];
      ScanSteps(sb, i - 1, val[i..]);
      assert val[i..][0] == ch && val[i..][1..] == val[i + 1..];
      if escaped {
        sb := sb + Unescape(ch);
        escaped := false;
      } else if ch == '\\' {
        escaped := true;
      } else if ch == '"' {
        closed := true;
        i := i + 1;
        break;
      } else {
        sb := sb + [ch];
      }
      i := i + 1;
    }
    if !closed { return Err(UnclosedDouble); }
    if !OnlyComment(val[i..]) { return Err(TrailingCharacters); }
    return Ok(sb);
  }

  method ParsePlain(val: string) returns (r: string)
    ensures r == Unquoted(val)
  {
    var idx := 0;
    while idx < |val|
      invariant 0 <= idx <= |val|
      invariant BeforeComment(val, 0) == BeforeComment(val, idx)
    {
      if val[idx] == '#' {
        if idx > 0 && (val[idx - 1] == ' ' || val[idx - 1] == '\t') {
          TrimIsTrimmed(val[..idx]);
          return TrimSpace(TrimSpace(val[..idx]));
        }
      }
      idx := idx + 1;
    }
    return TrimSpace(val);
  }

  // ---- Lines ------------------------------------------------------------------------------------

  function DropCR(line: string): string {
    if line != "" && line[|line| - 1] == '\r' then line[..|line| - 1] else line
  }

  /** The scanner's lines: split at newlines, one trailing carriage return dropped, no empty last line. */
  function Lines(content: string): seq<string>
    decreases |content|
  {
    if content == "" then []
    else
      var i := IndexOf(content, '\n');
      [DropCR(content[..i])] + if i == |content| then [] else Lines(content[i + 1..])
  }

  datatype Line = Skip | Set(key: string, value: string) | Bad(error: ParseError)

  const BOM := "\U{EF}\U{BB}\U{BF}"

  /** The text of a line with the byte-order mark and an "export " prefix removed. */
  function Stripped(text: string, first: bool): string {
    var t := TrimSpace(text);
    if first then TrimSpace(TrimPrefix(t, BOM)) else t
  }

  /** A line's assignment, without white space and export in front. */
  function Assignment(line: string): Line {
    var eq := IndexOf(line, '=');
    if eq == |line| then Skip
    else
      var key := TrimSpace(line[..eq]);
      if key == "" then Skip
      else match Value(TrimSpace(line[eq + 1..]))
        case Err(e) => Bad(e)
        case Ok(v) => Set(key, v)
  }

  function ReadLine(text: string, first: bool): Line {
    var t := Stripped(text, first);
    if t == "" || HasPrefix(t, "#") then Skip
    else Assignment(if HasPrefix(t, "export ") then TrimSpace(t[7..]) else t)
  }

  function ReadLines(lines: seq<string>): seq<Line> {
    seq(|lines|, i requires 0 <= i < |lines| => ReadLine(lines[i], i == 0))
  }

  /** All lines in order: the first bad one is the answer, later assignments override earlier ones. */
  function Collect(ls: seq<Line>): Result<map<string, string>, ParseError> {
    if ls == [] then Ok(map[])
    else
      var n := |ls| - 1;
      var before := Collect(ls[..n]);
      if before.Err? then before
      else match ls[n]
        case Skip => before
        case Bad(e) => Err(e)
        case Set(k, v) => Ok(before.value[k := v])
  }

  function Parse(content: string): Result<map<string, string>, ParseError> { Collect(ReadLines(Lines(content))) }

  lemma {:induction false} FirstBadLine(ls: seq<Line>, n: nat)
    requires n < |ls| && Collect(ls[..n]).Ok? && ls[n].Bad?
    ensures Collect(ls) == Err(ls[n].error)
    decreases |ls|
  {
    var last := |ls| - 1;
    if n < last {
      assert ls[..last][..n] == ls[..n];
      FirstBadLine(ls[..last], n);
    }
  }

  /** One line of the loop, as its statements read it. */
  method ScanLine(text: string, first: bool) returns (l: Line)
    ensures l == ReadLine(text, first)
  {
    var line := TrimSpace(text);
    if first {
      line := TrimSpace(TrimPrefix(line, BOM));
    }
    if line == "" || HasPrefix(line, "#") { return Skip; }
    if HasPrefix(line, "export ") { line := TrimSpace(line[7..]); }
    l := ScanAssignment(line);
  }

  method ScanAssignment(line: string) returns (l: Line)
    ensures l == Assignment(line)
  {
    var eq := IndexOf(line, '=');
    if eq == |line| { return Skip; }
    var key := TrimSpace(line[..eq]);
    if key == "" { return Skip; }
    var parsed := ParseValue(TrimSpace(line[eq + 1..]));
    if parsed.Err? { return Bad(parsed.error); }
    return Set(key, parsed.value);
  }

  lemma CollectStep(ls: seq<Line>, n: nat)
    requires n < |ls| && Collect(ls[..n]).Ok?
    ensures ls[n].Skip? ==> Collect(ls[..n + 1]) == Collect(ls[..n])
    ensures ls[n].Set? ==> Collect(ls[..n + 1]) == Ok(Collect(ls[..n]).value[ls[n].key := ls[n].value])
    ensures ls[n].Bad? ==> Collect(ls) == Err(ls[n].error)
  {
    assert ls[..n + 1][..n] == ls[..n] && ls[..n + 1][n] == ls[n];
    if ls[n].Bad? { FirstBadLine(ls, n); }
  }

  /** The scanner loop. */
  method ParseEnvReader(content: string) returns (r: Result<map<string, string>, ParseError>)
    ensures r == Parse(content)
  {
    var vars: map<string, string> := map[];
    var lines := Lines(content);
    ghost var ls := ReadLines(lines);
    var lineNum := 0;
    while lineNum < |lines|
      invariant 0 <= lineNum <= |lines| && Collect(ls[..lineNum]) == Ok(vars)
    {
      CollectStep(ls, lineNum);
      var l := ScanLine(lines[lineNum], lineNum == 0);
      if l.Bad? { return Err(l.error); }
      if l.Set? { vars := vars[l.key := l.value]; }
      lineNum := lineNum + 1;
    }
    assert ls[..lineNum] == ls;
    return Ok(vars);
  }

  // ---- Printing and reading back ---------------------------------------------------------------------

  function EscapeChar(c: char): string {
    if c == '\\' then "\\\\" else if c == '"' then "\\\"" else if c == '\n' then "\\n"
    else if c == '\r' then "\\r" else if c == '\t' then "\\t" else [c]
  }

  function Escape(v: string): string { if v == "" then "" else EscapeChar(v[0]) + Escape(v[1..]) }

  function PrintLine(key: string, value: string): string { key + "=\"" + Escape(value) + "\"" }

  datatype Pair = Pair(key: string, value: string)

  function Print(pairs: seq<Pair>): string {
    if pairs == [] then "" else PrintLine(pairs[0].key, pairs[0].value) + "\n" + Print(pairs[1..])
  }

  function MapOf(pairs: seq<Pair>): map<string, string> {
    if pairs == [] then map[]
    else MapOf(pairs[..|pairs| - 1])[pairs[|pairs| - 1].key := pairs[|pairs| - 1].value]
  }

  predicate IdentifierStart(c: char) { 'a' <= c <= 'z' || 'A' <= c <= 'Z' || c == '_' }

  predicate Identifier(k: string) {
    k != "" && IdentifierStart(k[0]) && forall i | 0 <= i < |k| :: IdentifierStart(k[i]) || '0' <= k[i] <= '9'
  }

  lemma ScanEscapedChar(c: char, tail: string)
    ensures ScanQuoted(EscapeChar(c) + tail, false) == Prepend([c], |EscapeChar(c)|, ScanQuoted(tail, false))
  {
    var e := EscapeChar(c);
    var s := e + tail;
    if |e| == 2 {
      assert s[1..] == [e[1]] + tail && s[1..][1..] == tail;
    } else {
      assert s[1..] == tail;
    }
  }

  lemma ScanOneMore(c: char, tail: string, v: string, n: nat)
    requires ScanQuoted(tail, false) == Closed(v, n)
    ensures ScanQuoted(EscapeChar(c) + tail, false) == Closed([c] + v, |EscapeChar(c)| + n)
  {
    ScanEscapedChar(c, tail);
  }

  lemma ScanEscapeStep(c: char, body: string, end: string, v: string)
    requires ScanQuoted(body + end, false) == Closed(v, |body| + 1)
    ensures ScanQuoted((EscapeChar(c) + body) + end, false) == Closed([c] + v, |EscapeChar(c) + body| + 1)
  {
    Regroup(EscapeChar(c), body, end);
    ScanOneMore(c, body + end, v, |body| + 1);
  }

  lemma {:induction false} ScanInvertsEscape(v: string, rest: string)
    ensures ScanQuoted(Escape(v) + ("\"" + rest), false) == Closed(v, |Escape(v)| + 1)
    decreases |v|
  {
    if v == "" {
      assert Escape(v) + ("\"" + rest) == "\"" + rest;
    } else {
      ScanInvertsEscape(v[1..], rest);
      ScanEscapeStep(v[0], Escape(v[1..]), "\"" + rest, v[1..]);
      HeadTail(v);
    }
  }

  lemma {:induction false} EscapeHasNoNewline(v: string)
    ensures '\n' !in Escape(v)
    decreases |v|
  {
    if v != "" { EscapeHasNoNewline(v[1..]); }
  }

  /** A quoted value is read back whatever bytes it holds. */
  lemma QuotedValue(v: string)
    ensures Value("\"" + Escape(v) + "\"") == Ok(v)
  {
    var val := "\"" + Escape(v) + "\"";
    SolidEndsAreTrimmed(val);
    ScanInvertsEscape(v, "");
    assert val[1..] == Escape(v) + ("\"" + "");
    assert val[1 + (|Escape(v)| + 1)..] == "";
    assert OnlyComment("");
  }

  lemma NotExport(k: string, rest: string)
    requires Identifier(k)
    ensures !HasPrefix(k + "=" + rest, "export ")
  {
    var s := k + "=" + rest;
    assert "export "[6] == ' ' && '=' !in "export ";
    if |k| <= 6 { assert s[|k|] == '='; } else { assert s[6] == k[6]; }
  }

  lemma StrippedLine(k: string, rest: string, first: bool)
    requires Identifier(k) && rest != "" && Solid(rest[|rest| - 1])
    ensures var s := k + ['='] + rest;
            Stripped(s, first) == s && s != "" && !HasPrefix(s, "#") && !HasPrefix(s, "export ")
  {
    var s := k + ['='] + rest;
    SolidEndsAreTrimmed(s);
    assert BOM[0] == '\U{EF}' && s[0] == k[0];
    assert TrimPrefix(s, BOM) == s;
    NotExport(k, rest);
    assert k + "=" + rest == s;
  }

  lemma PrintedLine(k: string, v: string, first: bool)
    requires Identifier(k)
    ensures ReadLine(PrintLine(k, v), first) == Set(k, v)
  {
    var quoted := "\"" + Escape(v) + "\"";
    var s := PrintLine(k, v);
    assert s == k + ['='] + quoted;
    StrippedLine(k, quoted, first);
    SolidEndsAreTrimmed(k);
    SolidEndsAreTrimmed(quoted);
    IndexOfFirst(k, '=', quoted);
    assert s[..|k|] == k && s[|k| + 1..] == quoted;
    QuotedValue(v);
  }

  function PrintedLines(pairs: seq<Pair>): seq<string> {
    seq(|pairs|, i requires 0 <= i < |pairs| => PrintLine(pairs[i].key, pairs[i].value))
  }

  lemma FirstLine(line: string, rest: string)
    requires '\n' !in line && line != "" && line[|line| - 1] != '\r'
    ensures Lines(line + ['\n'] + rest) == [line] + Lines(rest)
  {
    var s := line + ['\n'] + rest;
    IndexOfFirst(line, '\n', rest);
    assert s[..|line|] == line && s[|line| + 1..] == rest;
  }

  lemma PrintedLineIsALine(k: string, v: string)
    requires Identifier(k)
    ensures var line := PrintLine(k, v); '\n' !in line && line != "" && line[|line| - 1] == '"'
  {
    EscapeHasNoNewline(v);
    assert forall i | 0 <= i < |k| :: k[i] != '\n';
  }

  lemma FirstPair(pairs: seq<Pair>)
    requires pairs != []
    ensures PrintedLines(pairs) == [PrintLine(pairs[0].key, pairs[0].value)] + PrintedLines(pairs[1..])
  {
  }

  lemma {:induction false} LinesOfPrint(pairs: seq<Pair>)
    requires forall p | p in pairs :: Identifier(p.key)
    ensures Lines(Print(pairs)) == PrintedLines(pairs)
    decreases |pairs|
  {
    if pairs != [] {
      var line := PrintLine(pairs[0].key, pairs[0].value);
      assert pairs[0] in pairs;
      PrintedLineIsALine(pairs[0].key, pairs[0].value);
      LinesOfPrint(pairs[1..]);
      FirstLine(line, Print(pairs[1..]));
      FirstPair(pairs);
    }
  }

  function Settings(pairs: seq<Pair>): seq<Line> {
    seq(|pairs|, i requires 0 <= i < |pairs| => Set(pairs[i].key, pairs[i].value))
  }

  lemma {:induction false} CollectSettings(pairs: seq<Pair>)
    ensures Collect(Settings(pairs)) == Ok(MapOf(pairs))
    decreases |pairs|
  {
    if pairs != [] {
      var n := |pairs| - 1;
      CollectSettings(pairs[..n]);
      assert Settings(pairs)[..n] == Settings(pairs[..n]);
    }
  }

  lemma ReadPrintedLines(pairs: seq<Pair>)
    requires forall p | p in pairs :: Identifier(p.key)
    ensures ReadLines(PrintedLines(pairs)) == Settings(pairs)
  {
    forall i | 0 <= i < |pairs| ensures ReadLine(PrintedLines(pairs)[i], i == 0) == Settings(pairs)[i] {
      assert pairs[i] in pairs;
      PrintedLine(pairs[i].key, pairs[i].value, i == 0);
    }
  }

  /** Round trip: printing any map from identifiers to byte strings, in any order, and parsing the text
      gives the map back. */
  lemma PrintThenParse(pairs: seq<Pair>)
    requires forall p | p in pairs :: Identifier(p.key)
    ensures Parse(Print(pairs)) == Ok(MapOf(pairs))
  {
    LinesOfPrint(pairs);
    ReadPrintedLines(pairs);
    CollectSettings(pairs);
  }

  /** Listing a map's entries once each, in any order, loses nothing. */
  lemma {:induction false} ListingIsTheMap(m: map<string, string>, pairs: seq<Pair>)
    requires forall p | p in pairs :: p.key in m && m[p.key] == p.value
    requires forall k | k in m :: Pair(k, m[k]) in pairs
    ensures MapOf(pairs) == m
  {
    MapOfEntries(m, pairs);
    forall k | k in m ensures k in MapOf(pairs) {
      var i :| 0 <= i < |pairs| && pairs[i] == Pair(k, m[k]);
      MapOfKey(pairs, i);
    }
  }

  lemma {:induction false} MapOfEntries(m: map<string, string>, pairs: seq<Pair>)
    requires forall p | p in pairs :: p.key in m && m[p.key] == p.value
    ensures forall k | k in MapOf(pairs) :: k in m && MapOf(pairs)[k] == m[k]
    decreases |pairs|
  {
    if pairs != [] {
      MapOfEntries(m, pairs[..|pairs| - 1]);
      assert pairs[|pairs| - 1] in pairs;
    }
  }

  lemma {:induction false} MapOfKey(pairs: seq<Pair>, i: nat)
    requires i < |pairs|
    ensures pairs[i].key in MapOf(pairs)
    decreases |pairs|
  {
    if i < |pairs| - 1 { MapOfKey(pairs[..|pairs| - 1], i); }
  }

  /** The round trip on maps: whatever order the entries are printed in, parsing returns the map. */
  lemma MapRoundTrip(m: map<string, string>, pairs: seq<Pair>)
    requires forall k | k in m :: Identifier(k)
    requires forall p | p in pairs :: p.key in m && m[p.key] == p.value
    requires forall k | k in m :: Pair(k, m[k]) in pairs
    ensures Parse(Print(pairs)) == Ok(m)
  {
    PrintThenParse(pairs);
    ListingIsTheMap(m, pairs);
  }

  // ---- Quoted values ------------------------------------------------------------------------------------

  /** What may follow a closing quote: nothing but white space and a comment. */
  predicate MayFollow(rest: string) { TrimSpace(rest) == "" || TrimSpace(rest)[0] == '#' }

  lemma {:induction false} ScanPastEscape(v: string, rest: string)
    ensures ScanQuoted(Escape(v) + rest, false) == Prepend(v, |Escape(v)|, ScanQuoted(rest, false))
    decreases |v|
  {
    if v == "" {
      assert Escape(v) + rest == rest;
      PrependNothing(ScanQuoted(rest, false));
    } else {
      ScanPastEscape(v[1..], rest);
      Regroup(EscapeChar(v[0]), Escape(v[1..]), rest);
      ScanEscapedChar(v[0], Escape(v[1..]) + rest);
      PrependTwice([v[0]], |EscapeChar(v[0])|, v[1..], |Escape(v[1..])|, ScanQuoted(rest, false));
      HeadTail(v);
    }
  }

  lemma PrependNothing(s: Scan)
    ensures Prepend("", 0, s) == s
  {
    if s.Closed? { assert "" + s.value == s.value; }
  }

  /** What a backslash and a byte stand for. */
  function EscapeMeans(c: char): string {
    match c
    case 'n' => "\n"
    case 'r' => "\r"
    case 't' => "\t"
    case '"' => "\""
    case '\\' => "\\"
    case '$' => "$"
    case _ => "\\" + [c]
  }

  lemma ScanEscape(c: char, rest: string)
    ensures ScanQuoted(['\\', c] + rest, false) == Prepend(EscapeMeans(c), 2, ScanQuoted(rest, false))
  {
    var s := ['\\', c] + rest;
    assert s[1..] == [c] + rest && s[1..][1..] == rest;
    PrependTwice("", 1, EscapeMeans(c), 1, ScanQuoted(rest, false));
    assert "" + EscapeMeans(c) == EscapeMeans(c);
    assert Unescape(c) == EscapeMeans(c);
  }

  /** A quoted value from its scan. */
  lemma ValueOfScan(body: string)
    requires TrailingSpace("\"" + body) == 0
    ensures var scan := ScanQuoted(body, false);
            Value("\"" + body)
            == if scan.Unclosed? then Err(UnclosedDouble)
               else if MayFollow(body[scan.used..]) then Ok(scan.value) else Err(TrailingCharacters)
  {
    var val, scan := "\"" + body, ScanQuoted(body, false);
    TrimLeftFixed(val);
    TrimRightFixed(val);
    assert val[1..] == body && val[0] == '"';
    if scan.Closed? {
      assert val[1 + scan.used..] == body[scan.used..];
      assert OnlyComment(body[scan.used..]) <==> MayFollow(body[scan.used..]);
    }
  }

  lemma ScanAround(v: string, c: char, tail: string, w: string, n: nat)
    requires ScanQuoted(tail, false) == Closed(w, n)
    ensures ScanQuoted(Escape(v) + (['\\', c] + tail), false)
            == Closed(v + (EscapeMeans(c) + w), |Escape(v)| + (2 + n))
  {
    ScanEscape(c, tail);
    ScanPastEscape(v, ['\\', c] + tail);
  }

  lemma QuotedToTheEnd(body: string, v: string)
    requires ScanQuoted(body, false) == Closed(v, |body|) && body != "" && body[|body| - 1] == '"'
    ensures Value("\"" + body) == Ok(v)
  {
    QuoteEnds("\"" + body);
    ValueOfScan(body);
    assert body[|body|..] == "";
    NothingMayFollow();
  }

  lemma QuoteEnds(s: string)
    requires s != "" && s[|s| - 1] == '"'
    ensures TrailingSpace(s) == 0
  {
  }

  lemma NothingMayFollow()
    ensures MayFollow("")
  {
  }

  /** An escape anywhere in a quoted value is read as what it means; an unknown one is kept as it stands. */
  lemma EscapeIsRead(v: string, c: char, w: string)
    ensures Value("\"" + (Escape(v) + (['\\', c] + (Escape(w) + ("\"" + ""))))) == Ok(v + (EscapeMeans(c) + w))
  {
    ScanInvertsEscape(w, "");
    var tail := Escape(w) + ("\"" + "");
    ScanAround(v, c, tail, w, |Escape(w)| + 1);
    var body := Escape(v) + (['\\', c] + tail);
    assert body[|body| - 1] == tail[|tail| - 1] == '"';
    QuotedToTheEnd(body, v + (EscapeMeans(c) + w));
  }

  lemma ClosedThen(e: string, v: string, rest: string)
    requires TrailingSpace(rest) == 0 && ScanQuoted(e + ("\"" + rest), false) == Closed(v, |e| + 1)
    ensures Value("\"" + (e + ("\"" + rest))) == if MayFollow(rest) then Ok(v) else Err(TrailingCharacters)
  {
    QuotedTail("\"" + e, rest);
    Regroup("\"", e, "\"" + rest);
    ValueOfScan(e + ("\"" + rest));
    TailOf(e, rest);
  }

  lemma TailOf(e: string, rest: string)
    ensures (e + ("\"" + rest))[|e| + 1..] == rest
  {
  }

  /** After the closing quote only a comment may follow. */
  lemma AfterTheQuote(v: string, rest: string)
    requires TrailingSpace(rest) == 0
    ensures Value("\"" + (Escape(v) + ("\"" + rest))) == if MayFollow(rest) then Ok(v) else Err(TrailingCharacters)
  {
    ScanInvertsEscape(v, rest);
    ClosedThen(Escape(v), v, rest);
  }

  lemma QuotedTail(p: string, rest: string)
    requires TrailingSpace(rest) == 0
    ensures TrailingSpace(p + ("\"" + rest)) == 0
  {
    if rest == "" {
      QuoteEnds(p + ("\"" + rest));
    } else {
      Regroup(p, "\"", rest);
      QuoteThenRest(p, rest);
    }
  }

  lemma QuoteThenRest(p: string, rest: string)
    requires rest != "" && TrailingSpace(rest) == 0
    ensures TrailingSpace(p + "\"" + rest) == 0
  {
    var s := p + "\"" + rest;
    var k := |s|;
    assert s[k - 1] == rest[|rest| - 1];
    if |rest| >= 2 { assert s[k - 2] == rest[|rest| - 2]; } else { assert s[k - 2] == '"'; }
    if |rest| >= 3 { assert s[k - 3] == rest[|rest| - 3]; }
    if |rest| == 2 { assert s[k - 3] == '"'; }
  }

  /** A quote that is not closed is an error. */
  lemma UnclosedQuotes(v: string, w: string)
    requires TrailingSpace("\"" + Escape(v)) == 0 && TrailingSpace("'" + w) == 0 && '\'' !in w
    ensures Value("\"" + Escape(v)) == Err(UnclosedDouble)
    ensures Value("'" + w) == Err(UnclosedSingle)
  {
    ScanPastEscape(v, "");
    assert Escape(v) + "" == Escape(v);
    ValueOfScan(Escape(v));
    var other := "'" + w;
    TrimLeftFixed(other);
    TrimRightFixed(other);
    assert other[1..] == w;
  }

  // ---- Unquoted values ----------------------------------------------------------------------------------

  /** An unquoted value ends just before its first comment mark, and is trimmed. */
  lemma {:induction false} UnquotedEndsAtComment(s: string, from: nat)
    requires from <= |s|
    ensures var r := BeforeComment(s, from);
            && r <= s && |r| >= from
            && (forall i | from <= i < |r| :: !CommentAt(s, i))
            && (|r| < |s| ==> CommentAt(s, |r|))
    decreases |s| - from
  {
    if from < |s| && !CommentAt(s, from) { UnquotedEndsAtComment(s, from + 1); }
  }

  /** Single quotes keep every byte but the quote itself, backslashes and comment marks included; a
      comment may follow the closing quote, and nothing else. */
  lemma SingleQuotedValue(v: string, rest: string)
    requires '\'' !in v && TrailingSpace(rest) == 0
    ensures Value("'" + v + "'" + rest) == if MayFollow(rest) then Ok(v) else Err(TrailingCharacters)
  {
    assert OnlyComment(rest) <==> MayFollow(rest);
    var body := v + ['\''] + rest;
    var val := "'" + v + "'" + rest;
    assert val == "'" + body && val[1..] == body;
    IndexOfFirst(v, '\'', rest);
    TrimLeftFixed(val);
    assert TrailingSpace(val) == 0 by {
      if rest == "" { assert val[|val| - 1] == '\''; } else { SolidThenRest("'" + v, rest); }
    }
    TrimRightFixed(val);
    assert val[1..1 + |v|] == v && val[2 + |v|..] == rest;
  }

  /** White space at the end of a string does not reach back over a quote. */
  lemma SolidThenRest(p: string, rest: string)
    requires rest != "" && TrailingSpace(rest) == 0
    ensures TrailingSpace(p + "'" + rest) == 0
  {
    var s := p + "'" + rest;
    var k := |s|;
    assert s[k - 1] == rest[|rest| - 1];
    if |rest| >= 2 { assert s[k - 2] == rest[|rest| - 2]; } else { assert s[k - 2] == '\''; }
    if |rest| >= 3 { assert s[k - 3] == rest[|rest| - 3]; }
    if |rest| == 2 { assert s[k - 3] == '\''; }
  }

  /** No comment begins inside: no number sign has a space or tab before it. */
  predicate NoMark(v: string) { forall i: nat | 0 < i < |v| && v[i] == '#' :: v[i - 1] != ' ' && v[i - 1] != '\t' }

  /** A trimmed value with no quote in front and no comment mark is read as it stands. */
  lemma PlainValue(v: string)
    requires Trimmed(v) && (v != "" ==> v[0] != '"' && v[0] != '\'') && NoMark(v)
    ensures Value(v) == Ok(v)
  {
    UnquotedEndsAtComment(v, 0);
    assert BeforeComment(v, 0) == v;
  }

  /** The same with a comment behind it. */
  lemma CommentIsDropped(v: string, w: char, comment: string)
    requires Trimmed(v) && v != "" && v[0] != '"' && v[0] != '\'' && NoMark(v) && (w == ' ' || w == '\t')
    ensures Value(v + [w] + ['#'] + comment) == Ok(v)
  {
    var head := v + [w];
    var val := head + ['#'] + TrimRight(comment);
    TrimmedEnds(v);
    TrimLeftIsSuffix(v);
    LeadingStays(v, [w] + ['#'] + comment);
    assert v + ([w] + ['#'] + comment) == head + ['#'] + comment;
    TrimLeftFixed(head + ['#'] + comment);
    TrimRightStopsAt(head, '#', comment);
    assert val[0] == v[0];
    forall i: nat | i < |head| ensures !CommentAt(val, i) {
      if 0 < i < |v| { assert val[i] == v[i] && val[i - 1] == v[i - 1]; }
    }
    assert CommentAt(val, |head|);
    UnquotedEndsAtComment(val, 0);
    assert BeforeComment(val, 0) == head by {
      var r := BeforeComment(val, 0);
      assert r == val[..|r|];
      assert val[..|head|] == head;
    }
    TrimOfSpace(v, w);
  }

  lemma TrimmedEnds(v: string)
    requires Trimmed(v)
    ensures LeadingSpace(v) == 0 && TrailingSpace(v) == 0
  {
    TrimLeftIsSuffix(v);
    TrimRightIsPrefix(TrimLeft(v));
  }

  /** What follows a trimmed string does not make its beginning white space. */
  lemma LeadingStays(v: string, rest: string)
    requires v != "" && LeadingSpace(v) == 0 && (rest != "" ==> AsciiSpace(rest[0]))
    ensures LeadingSpace(v + rest) == 0
  {
    var s := v + rest;
    assert s[0] == v[0];
    if |v| >= 2 { assert s[1] == v[1]; }
    if |v| >= 3 { assert s[2] == v[2]; }
    if |v| == 1 && rest != "" { assert s[1] == rest[0]; }
    if |v| == 2 && rest != "" { assert s[2] == rest[0]; }
  }

  lemma TrimOfSpace(v: string, w: char)
    requires Trimmed(v) && v != "" && (w == ' ' || w == '\t')
    ensures TrimSpace(v + [w]) == v
  {
    TrimmedEnds(v);
    LeadingStays(v, [w]);
    TrimLeftFixed(v + [w]);
    assert (v + [w])[..|v|] == v;
    TrimRightFixed(v);
  }

  // ---- Lines, one kind at a time -----------------------------------------------------------------------

  lemma LinesStep(line: string, rest: string)
    requires '\n' !in line
    ensures Lines(line + ['\n'] + rest) == [DropCR(line)] + Lines(rest)
  {
    var s := line + ['\n'] + rest;
    IndexOfFirst(line, '\n', rest);
    assert s[..|line|] == line && s[|line| + 1..] == rest;
  }

  lemma LastLine(line: string)
    requires '\n' !in line && line != ""
    ensures Lines(line) == [DropCR(line)]
  {
    SplitNoNewline(line);
    assert line[..|line|] == line;
  }

  lemma DropCRIs(line: string)
    ensures DropCR(line + ['\r']) == line && (line == "" || line[|line| - 1] != '\r' ==> DropCR(line) == line)
  {
    assert (line + ['\r'])[..|line|] == line;
  }

  /** Lines end at a newline or at a carriage return and newline; the last one may end with the text. */
  lemma LinesAre(line: string, rest: string)
    requires '\n' !in line
    ensures Lines("") == []
    ensures line != "" && line[|line| - 1] != '\r' ==> Lines(line) == [line]
    ensures Lines(line + ['\r'] + ['\n'] + rest) == [line] + Lines(rest)
    ensures line == "" || line[|line| - 1] != '\r' ==> Lines(line + ['\n'] + rest) == [line] + Lines(rest)
  {
    DropCRIs(line);
    LinesStep(line, rest);
    LinesStep(line + ['\r'], rest);
    if line != "" { LastLine(line); }
  }

  lemma SplitNoNewline(line: string)
    requires '\n' !in line
    ensures IndexOf(line, '\n') == |line|
  {
  }

  /** Blank lines, comments and lines without an equals sign say nothing. */
  lemma SkippedLines(text: string, first: bool)
    ensures TrimSpace(text) == "" ==> ReadLine(text, first).Skip?
    ensures TrimSpace(text) != "" && TrimSpace(text)[0] == '#' ==> ReadLine(text, first).Skip?
    ensures '=' !in text ==> ReadLine(text, first).Skip?
  {
    var t := TrimSpace(text);
    assert TrimSpace("") == "";
    assert BOM[0] == '\U{EF}';
    if t != "" && t[0] == '#' {
      TrimIsTrimmed(text);
      assert TrimPrefix(t, BOM) == t;
    }
    if '=' !in text { NoEquals(text, first); }
  }

  lemma NoEquals(text: string, first: bool)
    requires '=' !in text
    ensures ReadLine(text, first).Skip?
  {
    TrimKeeps(text, '=');
    var t := TrimSpace(text);
    var u := TrimPrefix(t, BOM);
    assert '=' !in u;
    TrimKeeps(u, '=');
    var v := Stripped(text, first);
    assert '=' !in v;
    var w := if HasPrefix(v, "export ") then TrimSpace(v[7..]) else v;
    if HasPrefix(v, "export ") { TrimKeeps(v[7..], '='); }
    assert '=' !in w;
    if IndexOf(w, '=') < |w| { assert w[IndexOf(w, '=')] in w; }
  }

  /** What a line may have in front of its assignment: export, and the byte-order mark of a first line. */
  predicate Front(p: string, first: bool) {
    || p == "" || p == "export "
    || (first && (p == "\U{EF}\U{BB}\U{BF}" || p == "\U{EF}\U{BB}\U{BF}export "))
  }

  lemma AssignmentIs(k: string, rest: string)
    requires Identifier(k)
    ensures Assignment(k + ['='] + rest) == match Value(rest)
                                            case Ok(v) => Set(k, v)
                                            case Err(e) => Bad(e)
  {
    var s := k + ['='] + rest;
    SolidEndsAreTrimmed(k);
    IndexOfFirst(k, '=', rest);
    assert s[..|k|] == k && s[|k| + 1..] == rest;
    TrimIsTrimmed(rest);
    assert Value(TrimSpace(rest)) == Value(rest);
  }

  /** A line sets its key to what its value reads as, or fails as the value does. */
  lemma AssignmentLine(p: string, k: string, rest: string, first: bool)
    requires Front(p, first) && Identifier(k) && (rest == "" || Solid(rest[|rest| - 1]))
    ensures ReadLine(p + (k + ['='] + rest), first)
            == match Value(rest)
               case Ok(v) => Set(k, v)
               case Err(e) => Bad(e)
  {
    FrontIsDropped(p, k, rest, first);
    AssignmentIs(k, rest);
  }

  /** An assignment is trimmed, begins with no mark, comment sign or export, and is so behind an export too. */
  lemma PlainStart(k: string, rest: string, first: bool)
    requires Identifier(k) && (rest == "" || Solid(rest[|rest| - 1]))
    ensures var s := k + ['='] + rest;
            && s != "" && Solid(s[|s| - 1]) && Trimmed(s) && !HasPrefix(s, "#") && !HasPrefix(s, "export ")
            && Stripped(s, first) == s && Stripped("export " + s, first) == "export " + s
  {
    var s := k + ['='] + rest;
    var x := "export " + s;
    assert s[0] == k[0] && (rest == "" ==> s[|s| - 1] == '=') && (rest != "" ==> s[|s| - 1] == rest[|rest| - 1]);
    SolidEndsAreTrimmed(s);
    assert x[0] == 'e' && x[|x| - 1] == s[|s| - 1];
    SolidEndsAreTrimmed(x);
    assert BOM[0] == '\U{EF}';
    assert TrimPrefix(s, BOM) == s && TrimPrefix(x, BOM) == x;
    NotExport(k, rest);
    assert k + "=" + rest == s;
  }

  lemma FrontIsDropped(p: string, k: string, rest: string, first: bool)
    requires Front(p, first) && Identifier(k) && (rest == "" || Solid(rest[|rest| - 1]))
    ensures ReadLine(p + (k + ['='] + rest), first) == Assignment(k + ['='] + rest)
  {
    var s := k + ['='] + rest;
    PlainStart(k, rest, first);
    ReadPlain(s, first);
    ReadExport(s, first);
    if p == "" {
      assert p + s == s;
    } else if p != "export " {
      MarkInFront(p, s);
    }
  }

  lemma MarkInFront(p: string, s: string)
    requires p == "\U{EF}\U{BB}\U{BF}" || p == "\U{EF}\U{BB}\U{BF}export "
    requires s != "" && Solid(s[|s| - 1]) && Trimmed(s) && Stripped(s, true) == s
    requires Stripped("export " + s, true) == "export " + s
    ensures ReadLine(p + s, true)
            == if p == "\U{EF}\U{BB}\U{BF}" then ReadLine(s, true) else ReadLine("export " + s, true)
  {
    if p == BOM {
      MarkIsDropped(s);
      ReadMarked(s);
    } else {
      var x := "export " + s;
      assert p == BOM + "export ";
      Regroup(BOM, "export ", s);
      assert x[|x| - 1] == s[|s| - 1] && x[0] == 'e';
      SolidEndsAreTrimmed(x);
      MarkIsDropped(x);
      ReadMarked(x);
    }
  }

  lemma ReadPlain(s: string, first: bool)
    requires s != "" && !HasPrefix(s, "#") && !HasPrefix(s, "export ") && Stripped(s, first) == s
    ensures ReadLine(s, first) == Assignment(s)
  {
  }

  lemma ReadExport(s: string, first: bool)
    requires Trimmed(s) && Stripped("export " + s, first) == "export " + s
    ensures ReadLine("export " + s, first) == Assignment(s)
  {
    var x := "export " + s;
    assert x[7..] == s && x[..7] == "export " && x[0] == 'e';
    assert HasPrefix(x, "export ");
  }

  /** A first line behind the mark reads as it does without it. */
  lemma ReadMarked(s: string)
    requires TrimSpace(BOM + s) == BOM + s && TrimPrefix(BOM + s, BOM) == s && Stripped(s, true) == s && Trimmed(s)
    ensures ReadLine(BOM + s, true) == ReadLine(s, true)
  {
  }

  /** The mark is no white space, so trimming leaves it in front. */
  lemma MarkIsDropped(s: string)
    requires s != "" && Solid(s[|s| - 1])
    ensures TrimSpace(BOM + s) == BOM + s && TrimPrefix(BOM + s, BOM) == s
  {
    var t := BOM + s;
    assert t[0] == '\U{EF}' && t[|t| - 1] == s[|s| - 1] && t[|BOM|..] == s;
    TrimLeftFixed(t);
    TrimRightFixed(t);
  }

  // ---- Files, from their lines --------------------------------------------------------------------------

  predicate NoneBad(ls: seq<Line>) { forall i | 0 <= i < |ls| :: !ls[i].Bad? }

  /** A file is refused exactly when some line is bad. */
  lemma {:induction false} CollectsIff(ls: seq<Line>)
    ensures Collect(ls).Ok? <==> NoneBad(ls)
    decreases |ls|
  {
    if ls != [] {
      var n := |ls| - 1;
      CollectsIff(ls[..n]);
      if NoneBad(ls[..n]) {
        forall i | 0 <= i < n ensures !ls[i].Bad? { assert ls[i] == ls[..n][i]; }
      }
    }
  }

  /** Line i is the last one to set k. */
  predicate LastSets(ls: seq<Line>, i: int, k: string) {
    && 0 <= i < |ls| && ls[i].Set? && ls[i].key == k
    && forall j | i < j < |ls| :: !(ls[j].Set? && ls[j].key == k)
  }

  /** A variable has the value of the last line that sets it. */
  lemma {:induction false} LastLineWins(ls: seq<Line>, k: string, i: int)
    requires NoneBad(ls) && LastSets(ls, i, k)
    ensures Collect(ls).Ok? && k in Collect(ls).value && Collect(ls).value[k] == ls[i].value
    decreases |ls|
  {
    CollectsIff(ls);
    var n := |ls| - 1;
    if i < n {
      CollectsIff(ls[..n]);
      LastLineWins(ls[..n], k, i);
    }
  }

  /** No other variable is set. */
  lemma {:induction false} SetByALine(ls: seq<Line>, k: string) returns (i: int)
    requires Collect(ls).Ok? && k in Collect(ls).value
    ensures LastSets(ls, i, k)
    decreases |ls|
  {
    var n := |ls| - 1;
    if ls[n].Set? && ls[n].key == k {
      i := n;
    } else {
      i := SetByALine(ls[..n], k);
      assert ls[i] == ls[..n][i];
      forall j | i < j < |ls| ensures !(ls[j].Set? && ls[j].key == k) {
        if j < n { assert ls[j] == ls[..n][j]; }
      }
    }
  }

  /** The whole reader: refused at the first bad line with its error, and otherwise exactly the variables some
      line sets, each with the value of its last such line. */
  lemma ParsesAs(content: string, n: nat, k: string, i: int)
    ensures var ls := ReadLines(Lines(content));
            && (n < |ls| && ls[n].Bad? && NoneBad(ls[..n]) ==> Parse(content) == Err(ls[n].error))
            && (Parse(content).Ok? <==> NoneBad(ls))
            && (Parse(content).Ok? && LastSets(ls, i, k) ==>
                  k in Parse(content).value && Parse(content).value[k] == ls[i].value)
            && (Parse(content).Ok? && k in Parse(content).value ==> exists j :: LastSets(ls, j, k))
  {
    var ls := ReadLines(Lines(content));
    CollectsIff(ls);
    if n < |ls| && ls[n].Bad? && NoneBad(ls[..n]) {
      CollectsIff(ls[..n]);
      FirstBadLine(ls, n);
    }
    if NoneBad(ls) {
      if LastSets(ls, i, k) { LastLineWins(ls, k, i); }
      if k in Collect(ls).value { var j := SetByALine(ls, k); }
    }
  }
}
