/** The decision logic of STELC_Copier.py: parsing `udisks --show-info`
    output into nested dictionaries, picking the removable file systems and
    their mount points out of them, the progress spinner, and reading
    rsync's output for the progress line.  What udisks and rsync print, and
    whether a udisks command succeeds, are inputs. */
module Copier {
  import opened PyRuntime

  // ---------------------------------------------------------------------
  // Values of the parsed device information

  /** What a key of the information dictionary maps to: a string, None (a
      key printed with nothing after its colon), or a nested dictionary. */
  datatype Value = Str(s: string) | Null | Dict(entries: map<string, Value>)

  /** The dictionary `getInfoDict` returns for one device. */
  type Info = map<string, Value>

  /** The characters Python 2 treats as white space in `str.split()` and in
      the regular expression class `\s`. */
  predicate IsSpace(c: char) {
    c == ' ' || c == '\t' || c == '\n' || c == '\r' || c as int == 11 || c as int == 12
  }

  /** `info[path[0]][path[1]]...`, when every step is a dictionary holding
      the key. */
  function Field(v: Value, path: seq<string>): Option<Value>
  {
    if path == [] then Some(v)
    else if v.Dict? && path[0] in v.entries then Field(v.entries[path[0]], path[1..])
    else None
  }

  lemma FieldOne(m: map<string, Value>, a: string)
    ensures Field(Dict(m), [a]) == if a in m then Some(m[a]) else None
  {
    assert [a][1..] == [];
  }

  lemma FieldTwo(m: map<string, Value>, a: string, b: string)
    ensures Field(Dict(m), [a, b]) ==
            if a in m && m[a].Dict? && b in m[a].entries then Some(m[a].entries[b]) else None
  {
    assert [a, b][1..] == [b];
    if a in m && m[a].Dict? {
      FieldOne(m[a].entries, b);
    }
  }

  lemma FieldThree(m: map<string, Value>, a: string, b: string, c: string)
    ensures Field(Dict(m), [a, b, c]) ==
            if a in m && m[a].Dict? && b in m[a].entries && m[a].entries[b].Dict? &&
               c in m[a].entries[b].entries
            then Some(m[a].entries[b].entries[c]) else None
  {
    assert [a, b, c][1..] == [b, c];
    if a in m && m[a].Dict? {
      FieldTwo(m[a].entries, b, c);
    }
  }

  /** `d[key]` on a value: a missing key raises KeyError, and subscripting a
      string or None with a string raises TypeError. */
  function Lookup(v: Value, key: string): (r: Result<Value>)
    ensures r.Ok? <==> Field(v, [key]).Some?
    ensures r.Ok? ==> Field(v, [key]) == Some(r.value)
  {
    match v
    case Dict(m) => if key in m then Ok(m[key]) else Err(KeyError(key))
    case _ => Err(TypeError)
  }

  // ---------------------------------------------------------------------
  // One line of `udisks --show-info`

  /** The groups of a line matching `^( +)([^ ][^:]*): *([^ ].*)?$`: the
      width of the indent, the key, and the value (None when nothing but
      spaces follows the colon). */
  datatype InfoLine = InfoLine(indent: nat, key: string, val: Value)

  /** The number of spaces a string starts with. */
  function LeadingSpaces(s: string): (n: nat)
    ensures n <= |s| && (n < |s| ==> s[n] != ' ')
  {
    if s == [] || s[0] != ' ' then 0 else 1 + LeadingSpaces(s[1..])
  }

  /** Every character before that count is a space. */
  lemma {:induction false} LeadingSpacesAreSpaces(s: string)
    ensures forall i :: 0 <= i < LeadingSpaces(s) ==> s[i] == ' '
  {
    if s != [] && s[0] == ' ' {
      LeadingSpacesAreSpaces(s[1..]);
    }
  }

  /** The first position at or after `from` holding a colon. */
  function ColonFrom(s: string, from: nat): (c: Option<nat>)
    decreases |s| - from
    ensures c.Some? ==> from <= c.value < |s| && s[c.value] == ':'
  {
    if from >= |s| then None
    else if s[from] == ':' then Some(from)
    else ColonFrom(s, from + 1)
  }

  /** No colon lies between `from` and the one found, nor after `from` when
      none is found. */
  lemma {:induction false} ColonFromIsFirst(s: string, from: nat)
    ensures var c := ColonFrom(s, from);
            forall i :: from <= i < (if c.Some? then c.value else |s|) ==> s[i] != ':'
    decreases |s| - from
  {
    if from < |s| && s[from] != ':' {
      ColonFromIsFirst(s, from + 1);
    }
  }

  /** The value group: what follows the colon once its spaces are skipped. */
  function ValueAfter(rest: string): Value
  {
    var m := LeadingSpaces(rest);
    if m == |rest| then Null else Str(rest[m..])
  }

  /** `re.search('^( +)([^ ][^:]*): *([^ ].*)?$', line)`.  The indent takes
      every leading space, the key runs from the first other character (a
      colon included) to the first colon after it. */
  function MatchInfoLine(line: string): Option<InfoLine>
  {
    var n := LeadingSpaces(line);
    if n == 0 || n == |line| then None
    else match ColonFrom(line, n + 1)
      case None => None
      case Some(c) => Some(InfoLine(n, line[n..c], ValueAfter(line[c + 1..])))
  }

  /** The text udisks printed for a value. */
  function ValueText(v: Value): string {
    if v.Str? then v.s else ""
  }

  /** Spaces in front of a text that does not start with one are counted
      exactly. */
  lemma {:induction false} LeadingSpacesOf(k: nat, t: string)
    requires t == [] || t[0] != ' '
    ensures LeadingSpaces(Spaces(k) + t) == k
  {
    if k > 0 {
      var s := Spaces(k) + t;
      assert s[0] == ' ';
      assert s[1..] == Spaces(k - 1) + t;
      LeadingSpacesOf(k - 1, t);
    }
  }

  lemma ConcatShape(a: string, b: string, c: string, d: string, e: string)
    ensures a + b + c + d + e == a + (b + (c + (d + e)))
  {
  }

  lemma Regroup(line: string, pre: string, key: string, rest: string, gap: string, text: string)
    requires line == pre + (key + (":" + rest)) && rest == gap + text
    ensures line == pre + key + ":" + gap + text
  {
  }

  lemma SplitAround(s: string, n: nat, c: nat)
    requires n <= c < |s|
    ensures s == s[..n] + (s[n..c] + ([s[c]] + s[c + 1..]))
  {
  }

  lemma PieceAt(a: string, b: string, r: string)
    ensures (a + (b + r))[|a|..|a| + |b|] == b && (a + (b + r))[|a| + |b|..] == r
  {
  }

  lemma MatchInfoLineAt(line: string, n: nat, c: nat)
    requires LeadingSpaces(line) == n && 0 < n < |line| && ColonFrom(line, n + 1) == Some(c)
    ensures MatchInfoLine(line) == Some(InfoLine(n, line[n..c], ValueAfter(line[c + 1..])))
  {
  }

  /** The same for any run of spaces. */
  lemma {:induction false} LeadingSpacesAll(pre: string, t: string)
    requires forall i :: 0 <= i < |pre| ==> pre[i] == ' '
    requires t == [] || t[0] != ' '
    ensures LeadingSpaces(pre + t) == |pre|
  {
    if pre != [] {
      assert (pre + t)[1..] == pre[1..] + t;
      LeadingSpacesAll(pre[1..], t);
    }
  }

  /** A colon with none before it (from `from` on) is the one found. */
  lemma ColonFromIs(s: string, from: nat, c: nat)
    requires from <= c < |s| && s[c] == ':' && forall i :: from <= i < c ==> s[i] != ':'
    ensures ColonFrom(s, from) == Some(c)
    decreases c - from
  {
    if from < c {
      ColonFromIs(s, from + 1, c);
    }
  }

  /** The key found after the indent ends at the first colon after its
      first character. */
  lemma KeyColon(line: string, indent: nat, key: string)
    requires key != [] && ':' !in key[1..]
    requires indent + |key| < |line| && line[indent..indent + |key|] == key && line[indent + |key|] == ':'
    ensures ColonFrom(line, indent + 1) == Some(indent + |key|)
  {
    var c := indent + |key|;
    forall i | indent + 1 <= i < c
      ensures line[i] != ':'
    {
      assert line[i] == key[1..][i - indent - 1];
    }
    ColonFromIs(line, indent + 1, c);
  }

  /** The value group of spaces followed by a text that does not start
      with one. */
  lemma ValueAfterOf(gap: nat, text: string)
    requires text == [] || text[0] != ' '
    ensures ValueAfter(Spaces(gap) + text) == if text == [] then Null else Str(text)
  {
    LeadingSpacesOf(gap, text);
    assert (Spaces(gap) + text)[gap..] == text;
  }

  /** The same with the indent, key and rest kept abstract. */
  lemma MatchInfoLineOf(line: string, pre: string, key: string, rest: string)
    requires pre != [] && forall i :: 0 <= i < |pre| ==> pre[i] == ' '
    requires key != [] && key[0] != ' ' && ':' !in key[1..]
    requires line == pre + (key + (":" + rest))
    ensures MatchInfoLine(line) == Some(InfoLine(|pre|, key, ValueAfter(rest)))
  {
    LeadingSpacesAll(pre, key + (":" + rest));
    PieceAt(pre, key, ":" + rest);
    var c := |pre| + |key|;
    assert line[|pre|..c] == key;
    assert line[c..] == ":" + rest;
    assert line[c] == ':' && line[c + 1..] == rest;
    KeyColon(line, |pre|, key);
    MatchInfoLineAt(line, |pre|, c);
  }

  /** A line of the shape the pattern describes is matched, and gives back
      its indent, key and value. */
  lemma MatchInfoLineComplete(indent: nat, key: string, gap: nat, text: string)
    requires indent >= 1 && key != [] && key[0] != ' ' && ':' !in key[1..]
    requires text == [] || text[0] != ' '
    ensures var line := Spaces(indent) + key + ":" + Spaces(gap) + text;
            MatchInfoLine(line) == Some(InfoLine(indent, key, if text == [] then Null else Str(text)))
  {
    ConcatShape(Spaces(indent), key, ":", Spaces(gap), text);
    MatchInfoLineOf(Spaces(indent) + key + ":" + Spaces(gap) + text, Spaces(indent), key, Spaces(gap) + text);
    ValueAfterOf(gap, text);
  }

  /** The pieces of a match: an indent of at least one space, a key that
      starts with something other than a space and has no colon after its
      first character, and a value with no leading space. */
  lemma MatchInfoLineParts(line: string)
    requires MatchInfoLine(line).Some?
    ensures var m := MatchInfoLine(line).value;
            m.indent >= 1 && m.key != [] && m.key[0] != ' ' && ':' !in m.key[1..] &&
            (m.val.Str? ==> m.val.s != [] && m.val.s[0] != ' ')
  {
    var n := LeadingSpaces(line);
    var c := ColonFrom(line, n + 1).value;
    assert MatchInfoLine(line) == Some(InfoLine(n, line[n..c], ValueAfter(line[c + 1..])));
    KeyHasNoColon(line, n);
    ValueAfterParts(line[c + 1..]);
  }

  /** The key between the indent and the first colon after it. */
  lemma KeyHasNoColon(line: string, n: nat)
    requires n < |line| && ColonFrom(line, n + 1).Some?
    ensures var c := ColonFrom(line, n + 1).value;
            n < c && ':' !in line[n..c][1..]
  {
    var c := ColonFrom(line, n + 1).value;
    ColonFromIsFirst(line, n + 1);
    var key := line[n..c];
    assert forall i :: 0 <= i < |key| - 1 ==> key[1..][i] == line[n + 1 + i];
  }

  /** A value's text does not start with a space. */
  lemma ValueAfterParts(rest: string)
    ensures ValueAfter(rest).Str? ==> ValueAfter(rest).s != [] && ValueAfter(rest).s[0] != ' '
  {
    var g := LeadingSpaces(rest);
    if ValueAfter(rest).Str? {
      assert g < |rest| && ValueAfter(rest).s == rest[g..];
    }
  }

  /** The spaces a string starts with. */
  lemma SpacesPrefix(s: string)
    ensures s[..LeadingSpaces(s)] == Spaces(LeadingSpaces(s))
  {
    LeadingSpacesAreSpaces(s);
  }

  /** What follows the colon is some spaces and then the value's text. */
  lemma ValueAfterShape(rest: string)
    ensures rest == Spaces(LeadingSpaces(rest)) + ValueText(ValueAfter(rest))
  {
    var gap := LeadingSpaces(rest);
    SpacesPrefix(rest);
    assert ValueText(ValueAfter(rest)) == rest[gap..];
    assert rest == rest[..gap] + rest[gap..];
  }

  /** A matched line splits at its indent and its colon: the line is
      `pre`, the key, a colon and `rest`, where `pre` holds the indent and
      `rest` the spaces and the value. */
  lemma MatchInfoLinePieces(line: string) returns (pre: string, key: string, rest: string)
    requires MatchInfoLine(line).Some?
    ensures line == pre + (key + (":" + rest))
    ensures pre == Spaces(|pre|)
    ensures MatchInfoLine(line) == Some(InfoLine(|pre|, key, ValueAfter(rest)))
  {
    var n := LeadingSpaces(line);
    var c := ColonFrom(line, n + 1).value;
    pre, key, rest := line[..n], line[n..c], line[c + 1..];
    assert MatchInfoLine(line) == Some(InfoLine(n, key, ValueAfter(rest)));
    assert [line[c]] == ":";
    SplitAround(line, n, c);
    SpacesPrefix(line);
  }

  /** Every match has that shape: the line is the indent, the key, a
      colon, `gap` spaces and the value's text. */
  lemma MatchInfoLineSound(line: string) returns (gap: nat)
    requires MatchInfoLine(line).Some?
    ensures var m := MatchInfoLine(line).value;
            line == Spaces(m.indent) + m.key + ":" + Spaces(gap) + ValueText(m.val)
  {
    var pre, key, rest := MatchInfoLinePieces(line);
    gap := LeadingSpaces(rest);
    ValueAfterShape(rest);
    Regroup(line, pre, key, rest, Spaces(gap), ValueText(ValueAfter(rest)));
  }

  // ---------------------------------------------------------------------
  // getInfoDict: folding the lines into the nested dictionary

  /** Python's `s.split(' ')[-1]`: the text after the last space, or all of
      `s` when it has none. */
  function LastField(s: string): string
  {
    if s == [] || s[|s| - 1] == ' ' then ""
    else LastField(s[..|s| - 1]) + [s[|s| - 1]]
  }

  /** That text is the longest space-free end of `s`: it ends `s`, holds no
      space, and is either all of `s` or preceded by a space. */
  lemma {:induction false} LastFieldIsLastWord(s: string)
    ensures var r := LastField(s);
            |r| <= |s| && r == s[|s| - |r|..] && ' ' !in r &&
            (|r| < |s| ==> s[|s| - |r| - 1] == ' ')
  {
    if s != [] && s[|s| - 1] != ' ' {
      var front := s[..|s| - 1];
      var last := s[|s| - 1];
      LastFieldIsLastWord(front);
      var r := LastField(front);
      var k := |front| - |r|;
      assert LastField(s) == r + [last];
      assert s[k..] == front[k..] + [last];
      assert k > 0 ==> s[k - 1] == front[k - 1];
    } else {
      assert LastField(s) == "";
    }
  }

  /** The dictionary being filled and the most recent first- and
      second-level keys (`infoDict`, `keyOne`, `keyTwo`). */
  datatype ParseState = ParseState(info: Info, keyOne: string, keyTwo: string)

  /** The state after the first line: only the object path, both keys
      empty. */
  function Start(first: string): ParseState {
    ParseState(map["object path" := Str(LastField(first))], "", "")
  }

  /** `b` agrees with `a` on every key but `key`. */
  predicate SameOutside(a: map<string, Value>, b: map<string, Value>, key: string) {
    (forall k :: k in a && k != key ==> k in b && b[k] == a[k]) &&
    (forall k :: k in b && k != key ==> k in a)
  }

  /** One pass of the loop body of `getInfoDict` over a line after the
      first: a line the pattern rejects changes nothing, a matched one is
      nested by its indent. */
  function ParseLine(st: ParseState, line: string): Result<ParseState>
  {
    match MatchInfoLine(line)
    case None => Ok(st)
    case Some(m) => Nest(st, m)
  }

  /** Where a matched line goes, by the width of its indent. */
  function Nest(st: ParseState, m: InfoLine): Result<ParseState>
  {
    if m.indent == 2 then
      Ok(ParseState(st.info[m.key := m.val], m.key, st.keyTwo))
    else if m.indent == 4 then
      if st.keyOne !in st.info then Err(KeyError(st.keyOne))
      else
        var parent := st.info[st.keyOne];
        var inner := if parent.Dict? then parent.entries else map[];
        Ok(ParseState(st.info[st.keyOne := Dict(inner[m.key := m.val])], st.keyOne, m.key))
    else if m.indent == 6 then
      if st.keyOne !in st.info then Err(KeyError(st.keyOne))
      else
        var parent := st.info[st.keyOne];
        if !parent.Dict? then Err(TypeError)
        else if st.keyTwo !in parent.entries then Err(KeyError(st.keyTwo))
        else
          var child := parent.entries[st.keyTwo];
          var inner := if child.Dict? then child.entries else map[];
          var parent' := Dict(parent.entries[st.keyTwo := Dict(inner[m.key := m.val])]);
          Ok(ParseState(st.info[st.keyOne := parent'], st.keyOne, st.keyTwo))
    else Ok(st)
  }

  /** A 2-space line sets a top-level key and makes it the current one; no
      other top-level key changes. */
  lemma NestTopLevel(st: ParseState, m: InfoLine)
    requires m.indent == 2
    ensures var r := Nest(st, m);
            r.Ok? && Field(Dict(r.value.info), [m.key]) == Some(m.val) &&
            SameOutside(st.info, r.value.info, m.key) &&
            r.value.keyOne == m.key && r.value.keyTwo == st.keyTwo
  {
    FieldOne(st.info[m.key := m.val], m.key);
  }

  /** A 4-space line sets a key under the current top-level key, which must
      exist (KeyError otherwise); a string or None there is first replaced by
      an empty dictionary.  The key becomes the current second-level key,
      and nothing else changes. */
  lemma NestSecondLevel(st: ParseState, m: InfoLine)
    requires m.indent == 4
    ensures var r := Nest(st, m);
            (r.Err? <==> st.keyOne !in st.info) &&
            (r.Err? ==> r.error == KeyError(st.keyOne))
    ensures var r := Nest(st, m);
            r.Ok? ==>
              Field(Dict(r.value.info), [st.keyOne, m.key]) == Some(m.val) &&
              SameOutside(st.info, r.value.info, st.keyOne) &&
              st.keyOne in r.value.info && r.value.info[st.keyOne].Dict? &&
              (st.info[st.keyOne].Dict? ==>
                 SameOutside(st.info[st.keyOne].entries, r.value.info[st.keyOne].entries, m.key)) &&
              (!st.info[st.keyOne].Dict? ==> r.value.info[st.keyOne].entries.Keys == {m.key}) &&
              r.value.keyOne == st.keyOne && r.value.keyTwo == m.key
  {
    if st.keyOne in st.info {
      var parent := st.info[st.keyOne];
      var inner := if parent.Dict? then parent.entries else map[];
      FieldTwo(st.info[st.keyOne := Dict(inner[m.key := m.val])], st.keyOne, m.key);
    }
  }

  /** A 6-space line sets a key under the current second-level key.  A
      missing top-level key raises KeyError, a string or None there raises
      TypeError, and a missing second-level key raises KeyError; a string or
      None at the second level is first replaced by an empty dictionary.
      Nothing else changes. */
  lemma NestThirdLevel(st: ParseState, m: InfoLine)
    requires m.indent == 6
    ensures var r := Nest(st, m);
            (st.keyOne !in st.info ==> r == Err(KeyError(st.keyOne))) &&
            (st.keyOne in st.info && !st.info[st.keyOne].Dict? ==> r == Err(TypeError)) &&
            (st.keyOne in st.info && st.info[st.keyOne].Dict? && st.keyTwo !in st.info[st.keyOne].entries ==>
               r == Err(KeyError(st.keyTwo)))
    ensures var r := Nest(st, m);
            r.Ok? ==>
              Field(Dict(r.value.info), [st.keyOne, st.keyTwo, m.key]) == Some(m.val) &&
              SameOutside(st.info, r.value.info, st.keyOne) &&
              st.keyOne in r.value.info && r.value.info[st.keyOne].Dict? &&
              SameOutside(st.info[st.keyOne].entries, r.value.info[st.keyOne].entries, st.keyTwo) &&
              r.value.keyOne == st.keyOne && r.value.keyTwo == st.keyTwo
  {
    if st.keyOne in st.info && st.info[st.keyOne].Dict? && st.keyTwo in st.info[st.keyOne].entries {
      var parent := st.info[st.keyOne];
      var child := parent.entries[st.keyTwo];
      var inner := if child.Dict? then child.entries else map[];
      var parent' := Dict(parent.entries[st.keyTwo := Dict(inner[m.key := m.val])]);
      FieldThree(st.info[st.keyOne := parent'], st.keyOne, st.keyTwo, m.key);
    }
  }

  /** Lines the pattern rejects, and indents other than 2, 4 and 6, change
      nothing. */
  lemma ParseLineIgnores(st: ParseState, line: string)
    requires MatchInfoLine(line).None? || MatchInfoLine(line).value.indent !in {2, 4, 6}
    ensures ParseLine(st, line) == Ok(st)
  {
  }

  /** The loop of `getInfoDict` over `lines`, stopping at the first
      exception. */
  function ParseLines(st: ParseState, lines: seq<string>): Result<ParseState>
    decreases |lines|
  {
    if lines == [] then Ok(st)
    else match ParseLines(st, lines[..|lines| - 1])
      case Err(e) => Err(e)
      case Ok(s) => ParseLine(s, lines[|lines| - 1])
  }

  /** What `getInfoDict` returns for the lines udisks printed: IndexError
      when there are none, otherwise the dictionary built from the object
      path on the first line and the remaining lines. */
  function InfoDict(lines: seq<string>): (r: Result<Info>)
    ensures lines == [] ==> r == Err(IndexError)
    ensures r.Err? ==> r.error == IndexError || r.error == TypeError || r.error.KeyError?
  {
    if lines == [] then Err(IndexError)
    else match ParseLines(Start(lines[0]), lines[1..])
      case Err(e) => ParseErrors(Start(lines[0]), lines[1..]); Err(e)
      case Ok(st) => Ok(st.info)
  }

  /** The loop raises nothing but KeyError and TypeError. */
  lemma {:induction false} ParseErrors(st: ParseState, lines: seq<string>)
    ensures ParseLines(st, lines).Err? ==>
              ParseLines(st, lines).error == TypeError || ParseLines(st, lines).error.KeyError?
    decreases |lines|
  {
    if lines != [] {
      ParseErrors(st, lines[..|lines| - 1]);
    }
  }

  /** Once a line has raised, later lines do not matter. */
  lemma {:induction false} ParseErrorSticks(st: ParseState, a: seq<string>, b: seq<string>)
    requires ParseLines(st, a).Err?
    ensures ParseLines(st, a + b) == ParseLines(st, a)
    decreases |b|
  {
    if b != [] {
      var w := a + b;
      assert w[..|w| - 1] == a + b[..|b| - 1];
      ParseErrorSticks(st, a, b[..|b| - 1]);
      var e := ParseLines(st, a).error;
      assert ParseLines(st, w[..|w| - 1]) == Err(e);
      assert ParseLines(st, w) == Err(e);
    } else {
      assert a + b == a;
    }
  }

  /** `getInfoDict` after udisks answered with `lines`: the object path
      from the first line, then one pass per later line, carrying the
      dictionary and the current keys from line to line. */
  method ParseInfoDict(lines: seq<string>) returns (r: Result<Info>)
    ensures r == InfoDict(lines)
  {
    if |lines| == 0 {
      return Err(IndexError);
    }
    var keyOne, keyTwo := "", "";
    var infoDict: Info := map["object path" := Str(LastField(lines[0]))];
    var rest := lines[1..];
    var j := 0;
    while j < |rest|
      invariant 0 <= j <= |rest|
      invariant ParseLines(Start(lines[0]), rest[..j]) == Ok(ParseState(infoDict, keyOne, keyTwo))
    {
      ParseLinesNext(Start(lines[0]), rest, j, ParseState(infoDict, keyOne, keyTwo));
      match ParseLine(ParseState(infoDict, keyOne, keyTwo), rest[j]) {
        case Err(e) =>
          ParseErrorSticks(Start(lines[0]), rest[..j + 1], rest[j + 1..]);
          assert rest[..j + 1] + rest[j + 1..] == rest;
          return Err(e);
        case Ok(next) =>
          infoDict, keyOne, keyTwo := next.info, next.keyOne, next.keyTwo;
      }
      j := j + 1;
    }
    assert rest[..j] == rest;
    return Ok(infoDict);
  }

  /** One more line for the loop of `getInfoDict`. */
  lemma ParseLinesNext(st: ParseState, rest: seq<string>, j: nat, cur: ParseState)
    requires j < |rest| && ParseLines(st, rest[..j]) == Ok(cur)
    ensures ParseLines(st, rest[..j + 1]) == ParseLine(cur, rest[j])
  {
    assert rest[..j + 1][..j] == rest[..j];
  }

  /** A 2-space line whose key is "object path". */
  predicate SetsObjectPath(line: string) {
    MatchInfoLine(line).Some? && MatchInfoLine(line).value.indent == 2 &&
    MatchInfoLine(line).value.key == "object path"
  }

  /** Unless some later line is a 2-space line whose key is "object path",
      the object path read from the first line survives the loop. */
  lemma ObjectPathKept(lines: seq<string>)
    requires InfoDict(lines).Ok?
    requires forall l :: l in lines[1..] ==> !SetsObjectPath(l)
    ensures "object path" in InfoDict(lines).value &&
            InfoDict(lines).value["object path"] == Str(LastField(lines[0]))
  {
    var st := Start(lines[0]);
    ObjectPathLoop(st, lines[1..], Str(LastField(lines[0])));
    assert InfoDict(lines).value == ParseLines(st, lines[1..]).value.info;
  }

  lemma {:induction false} ObjectPathLoop(st: ParseState, lines: seq<string>, v: Value)
    requires st.keyOne != "object path" && "object path" in st.info && st.info["object path"] == v
    requires forall l :: l in lines ==> !SetsObjectPath(l)
    requires ParseLines(st, lines).Ok?
    ensures var s := ParseLines(st, lines).value;
            s.keyOne != "object path" && "object path" in s.info && s.info["object path"] == v
    decreases |lines|
  {
    if lines != [] {
      var front := lines[..|lines| - 1];
      assert forall l :: l in front ==> l in lines;
      ObjectPathLoop(st, front, v);
      assert lines[|lines| - 1] in lines;
    }
  }

  /** When the first line after the object path raises, that is the
      result. */
  lemma {:induction false} FirstLineRaises(st: ParseState, lines: seq<string>)
    requires lines != [] && ParseLine(st, lines[0]).Err?
    ensures ParseLines(st, lines) == ParseLine(st, lines[0])
  {
    assert lines[..1][..0] == [];
    assert ParseLines(st, lines[..1]) == ParseLine(st, lines[0]);
    ParseErrorSticks(st, lines[..1], lines[1..]);
    assert lines[..1] + lines[1..] == lines;
  }

  /** A nested line before any 2-space line has no parent: getInfoDict
      raises KeyError for the empty key. */
  lemma NestedFirstRaises(lines: seq<string>)
    requires |lines| >= 2 && MatchInfoLine(lines[1]).Some?
    requires MatchInfoLine(lines[1]).value.indent in {4, 6}
    ensures InfoDict(lines) == Err(KeyError(""))
  {
    var st := Start(lines[0]);
    assert "" !in st.info;
    assert ParseLine(st, lines[1]) == Err(KeyError(""));
    assert lines[1..][0] == lines[1];
    FirstLineRaises(st, lines[1..]);
  }

  // ---------------------------------------------------------------------
  // The device dictionary and the removable file systems

  /** `devDict`: the information of every device file, and the order in
      which `keys()` lists them (Python 2 leaves that order to the hash
      table, so it is part of the state here). */
  datatype DevDict = DevDict(order: seq<string>, info: map<string, Info>)

  /** Each device file is listed once, and exactly the ones with
      information. */
  predicate WellFormed(dd: DevDict) {
    (forall i, j :: 0 <= i < j < |dd.order| ==> dd.order[i] != dd.order[j]) &&
    (forall k :: k in dd.order ==> k in dd.info) &&
    (forall k :: k in dd.info ==> k in dd.order)
  }

  /** `devDict[k] = v`: a new key is listed last, an old one keeps its
      place. */
  function Put(dd: DevDict, k: string, v: Info): (r: DevDict)
    ensures r.info == dd.info[k := v]
    ensures k in dd.info ==> r.order == dd.order
    ensures k !in dd.info ==> r.order == dd.order + [k]
    ensures WellFormed(dd) ==> WellFormed(r)
  {
    if k in dd.info then DevDict(dd.order, dd.info[k := v])
    else DevDict(dd.order + [k], dd.info[k := v])
  }

  /** The outer test of `getRemovableFilesystems` on a candidate partition
      and the `dObj` it then reads: None when the device is not a writable
      file system, otherwise what its `partition`/`part of` entry holds.
      The lookups raise as Python's would. */
  function PartitionTarget(i: Info): Result<Option<Value>>
  {
    match Lookup(Dict(i), "usage")
    case Err(e) => Err(e)
    case Ok(usage) =>
      if usage != Str("filesystem") then Ok(None)
      else match Lookup(Dict(i), "is read only")
        case Err(e) => Err(e)
        case Ok(ro) =>
          if ro == Str("1") then Ok(None)
          else match Lookup(Dict(i), "partition")
            case Err(e) => Err(e)
            case Ok(part) =>
              match Lookup(part, "part of")
              case Err(e) => Err(e)
              case Ok(o) => Ok(Some(o))
  }

  /** The inner test: is this device the removable, detachable, writable
      drive whose object path is `dObj`? */
  function IsParent(i: Info, dObj: Value): Result<bool>
  {
    match Lookup(Dict(i), "object path")
    case Err(e) => Err(e)
    case Ok(path) =>
      if path != dObj then Ok(false)
      else match Lookup(Dict(i), "removable")
        case Err(e) => Err(e)
        case Ok(rm) =>
          if rm != Str("1") then Ok(false)
          else match Lookup(Dict(i), "drive")
            case Err(e) => Err(e)
            case Ok(drive) =>
              match Lookup(drive, "detachable")
              case Err(e) => Err(e)
              case Ok(det) =>
                if det != Str("1") then Ok(false)
                else match Lookup(Dict(i), "is read only")
                  case Err(e) => Err(e)
                  case Ok(ro) => Ok(ro != Str("1"))
  }

  /** The inner loop for partition `p` over the devices `ds`. */
  function ParentsOf(dd: DevDict, p: string, dObj: Value, ds: seq<string>): Result<seq<(string, string)>>
    requires forall d :: d in ds ==> d in dd.info
  {
    if ds == [] then Ok([])
    else
      var d := ds[|ds| - 1];
      match ParentsOf(dd, p, dObj, ds[..|ds| - 1])
      case Err(e) => Err(e)
      case Ok(acc) =>
        match IsParent(dd.info[d], dObj)
        case Err(e) => Err(e)
        case Ok(b) => Ok(if b then acc + [(p, d)] else acc)
  }

  /** Both loops of `getRemovableFilesystems`, the outer one over `ps`. */
  function Removables(dd: DevDict, ps: seq<string>): Result<seq<(string, string)>>
    requires forall p :: p in ps ==> p in dd.info
    requires forall d :: d in dd.order ==> d in dd.info
  {
    if ps == [] then Ok([])
    else
      var p := ps[|ps| - 1];
      match Removables(dd, ps[..|ps| - 1])
      case Err(e) => Err(e)
      case Ok(acc) =>
        match PartitionTarget(dd.info[p])
        case Err(e) => Err(e)
        case Ok(None) => Ok(acc)
        case Ok(Some(dObj)) =>
          match ParentsOf(dd, p, dObj, dd.order)
          case Err(e) => Err(e)
          case Ok(more) => Ok(acc + more)
  }

  /** A writable file system. */
  predicate WritableFilesystem(i: Info) {
    Field(Dict(i), ["usage"]) == Some(Str("filesystem")) &&
    Field(Dict(i), ["is read only"]) != Some(Str("1"))
  }

  /** A removable, detachable, writable drive whose object path is
      `dObj`. */
  predicate RemovableDrive(i: Info, dObj: Value) {
    Field(Dict(i), ["object path"]) == Some(dObj) &&
    Field(Dict(i), ["removable"]) == Some(Str("1")) &&
    Field(Dict(i), ["drive", "detachable"]) == Some(Str("1")) &&
    Field(Dict(i), ["is read only"]) != Some(Str("1"))
  }

  /** The pair rule: `p` is a writable file system on a partition of `d`,
      and `d` is a removable, detachable, writable drive. */
  predicate Chosen(pInfo: Info, dInfo: Info) {
    WritableFilesystem(pInfo) &&
    Field(Dict(pInfo), ["partition", "part of"]).Some? &&
    RemovableDrive(dInfo, Field(Dict(pInfo), ["partition", "part of"]).value)
  }

  /** What the outer test means when it does not raise. */
  lemma PartitionTargetMeaning(i: Info)
    requires PartitionTarget(i).Ok?
    ensures var t := PartitionTarget(i).value;
            (t.Some? <==> WritableFilesystem(i)) &&
            (t.Some? ==> Field(Dict(i), ["partition", "part of"]) == Some(t.value))
  {
    FieldOne(i, "usage");
    FieldOne(i, "is read only");
    FieldTwo(i, "partition", "part of");
    if "partition" in i {
      FieldOne(if i["partition"].Dict? then i["partition"].entries else map[], "part of");
    }
  }

  /** What the inner test means when it does not raise. */
  lemma IsParentMeaning(i: Info, dObj: Value)
    requires IsParent(i, dObj).Ok?
    ensures IsParent(i, dObj).value <==> RemovableDrive(i, dObj)
  {
    FieldOne(i, "object path");
    FieldOne(i, "removable");
    FieldOne(i, "is read only");
    FieldTwo(i, "drive", "detachable");
  }

  /** The inner loop collects `(p, d)` for exactly the devices `d` of `ds`
      that are removable drives holding `dObj`. */
  lemma {:induction false} ParentsOfMembers(dd: DevDict, p: string, dObj: Value, ds: seq<string>)
    requires forall d :: d in ds ==> d in dd.info
    requires ParentsOf(dd, p, dObj, ds).Ok?
    ensures forall x, y :: (x, y) in ParentsOf(dd, p, dObj, ds).value <==>
              x == p && y in ds && RemovableDrive(dd.info[y], dObj)
  {
    if ds != [] {
      var d := ds[|ds| - 1];
      var front := ds[..|ds| - 1];
      assert ds == front + [d];
      ParentsOfMembers(dd, p, dObj, front);
      IsParentMeaning(dd.info[d], dObj);
    }
  }

  /** The outer loop over `ps` collects exactly the chosen pairs whose
      partition is in `ps`. */
  lemma {:induction false} RemovablesMembers(dd: DevDict, ps: seq<string>)
    requires forall p :: p in ps ==> p in dd.info
    requires forall d :: d in dd.order ==> d in dd.info
    requires Removables(dd, ps).Ok?
    ensures forall x, y :: (x, y) in Removables(dd, ps).value <==>
              x in ps && y in dd.order && Chosen(dd.info[x], dd.info[y])
  {
    if ps != [] {
      var p := ps[|ps| - 1];
      var front := ps[..|ps| - 1];
      assert ps == front + [p];
      RemovablesMembers(dd, front);
      PartitionTargetMeaning(dd.info[p]);
      match PartitionTarget(dd.info[p])
      case Ok(None) =>
      case Ok(Some(dObj)) =>
        ParentsOfMembers(dd, p, dObj, dd.order);
    }
  }

  /** `getRemovableFilesystems` is sound and complete: when it returns, its
      list holds exactly the pairs of listed devices that the pair rule
      chooses. */
  lemma RemovablesExact(dd: DevDict)
    requires WellFormed(dd) && Removables(dd, dd.order).Ok?
    ensures forall p, d :: (p, d) in Removables(dd, dd.order).value <==>
              p in dd.info && d in dd.info && Chosen(dd.info[p], dd.info[d])
  {
    RemovablesMembers(dd, dd.order);
  }

  // ---------------------------------------------------------------------
  // getUsbMounts

  /** The first position at or after `k` that is not white space. */
  function SkipSpace(s: string, k: nat): (j: nat)
    requires k <= |s|
    ensures k <= j <= |s|
    decreases |s| - k
  {
    if k == |s| || !IsSpace(s[k]) then k else SkipSpace(s, k + 1)
  }

  /** The first position at or after `k` that is white space. */
  function WordEnd(s: string, k: nat): (j: nat)
    requires k <= |s|
    ensures k <= j <= |s|
    decreases |s| - k
  {
    if k == |s| || IsSpace(s[k]) then k else WordEnd(s, k + 1)
  }

  lemma {:induction false} SkipSpaceFacts(s: string, k: nat)
    requires k <= |s|
    ensures var j := SkipSpace(s, k);
            (forall i :: k <= i < j ==> IsSpace(s[i])) && (j < |s| ==> !IsSpace(s[j]))
    decreases |s| - k
  {
    if k < |s| && IsSpace(s[k]) {
      SkipSpaceFacts(s, k + 1);
    }
  }

  lemma {:induction false} WordEndFacts(s: string, k: nat)
    requires k <= |s|
    ensures var j := WordEnd(s, k);
            (forall i :: k <= i < j ==> !IsSpace(s[i])) && (j < |s| ==> IsSpace(s[j]))
    decreases |s| - k
  {
    if k < |s| && !IsSpace(s[k]) {
      WordEndFacts(s, k + 1);
    }
  }

  /** Python's `s.split()[0]`: the first run of characters that are not
      white space, or None where `split()` gives an empty list (and `[0]`
      raises IndexError). */
  function FirstToken(s: string): Option<string>
  {
    var k := SkipSpace(s, 0);
    if k == |s| then None else Some(s[k..WordEnd(s, k)])
  }

  /** There is no token exactly when the string is all white space. */
  lemma FirstTokenNone(s: string)
    ensures FirstToken(s).None? <==> forall i :: 0 <= i < |s| ==> IsSpace(s[i])
  {
    SkipSpaceFacts(s, 0);
  }

  /** A token is a non-empty run without white space, starting at `k` after
      nothing but white space and ending at white space or at the end. */
  lemma FirstTokenSome(s: string) returns (k: nat)
    requires FirstToken(s).Some?
    ensures var t := FirstToken(s).value;
            t != [] && (forall i :: 0 <= i < |t| ==> !IsSpace(t[i])) &&
            k + |t| <= |s| && s[k..k + |t|] == t &&
            (forall i :: 0 <= i < k ==> IsSpace(s[i])) &&
            (k + |t| == |s| || IsSpace(s[k + |t|]))
  {
    k := SkipSpace(s, 0);
    SkipSpaceFacts(s, 0);
    WordEndFacts(s, k);
    var j := WordEnd(s, k);
    assert j > k;
    assert FirstToken(s).value == s[k..j];
  }

  /** One pass of `getUsbMounts` on the partition's information: None when
      it is not mounted, otherwise the first token of its mount paths.
      Splitting None or a dictionary raises AttributeError, and a blank
      mount path IndexError. */
  function MountPath(i: Info): Result<Option<string>>
  {
    match Lookup(Dict(i), "is mounted")
    case Err(e) => Err(e)
    case Ok(m) =>
      if m != Str("1") then Ok(None)
      else match Lookup(Dict(i), "mount paths")
        case Err(e) => Err(e)
        case Ok(paths) =>
          if !paths.Str? then Err(AttributeError("split"))
          else match FirstToken(paths.s)
            case None => Err(IndexError)
            case Some(t) => Ok(Some(t))
  }

  /** `getUsbMounts(deviceList)` over the information in `dd`; a partition
      with no information raises KeyError. */
  function UsbMounts(dd: map<string, Info>, devs: seq<(string, string)>): Result<seq<string>>
  {
    if devs == [] then Ok([])
    else
      var p := devs[|devs| - 1].0;
      match UsbMounts(dd, devs[..|devs| - 1])
      case Err(e) => Err(e)
      case Ok(acc) =>
        if p !in dd then Err(KeyError(p))
        else match MountPath(dd[p])
          case Err(e) => Err(e)
          case Ok(None) => Ok(acc)
          case Ok(Some(t)) => Ok(acc + [t])
  }

  /** What one pass yields when it does not raise: a mount point exactly
      for a mounted partition, namely the first token of its mount
      paths. */
  lemma MountPathMeaning(i: Info)
    requires MountPath(i).Ok?
    ensures MountPath(i).value.Some? <==> Field(Dict(i), ["is mounted"]) == Some(Str("1"))
    ensures MountPath(i).value.Some? ==>
              exists s :: Field(Dict(i), ["mount paths"]) == Some(Str(s)) && FirstToken(s) == MountPath(i).value
  {
    FieldOne(i, "is mounted");
    FieldOne(i, "mount paths");
    if MountPath(i).value.Some? {
      var s := i["mount paths"].s;
      assert Field(Dict(i), ["mount paths"]) == Some(Str(s)) && FirstToken(s) == MountPath(i).value;
    }
  }

  /** The mount points come in the order of the device list: the result
      for a longer list is the result for its first part followed by the
      result for the rest, and the first exception wins. */
  lemma {:induction false} UsbMountsAppend(dd: map<string, Info>, a: seq<(string, string)>, b: seq<(string, string)>)
    ensures UsbMounts(dd, a + b) ==
            match UsbMounts(dd, a)
            case Err(e) => Err(e)
            case Ok(x) =>
              match UsbMounts(dd, b)
              case Err(e) => Err(e)
              case Ok(y) => Ok(x + y)
    decreases |b|
  {
    if b == [] {
      assert a + b == a;
      match UsbMounts(dd, a)
      case Err(e) =>
      case Ok(x) => assert x + [] == x;
    } else {
      var w := a + b;
      assert w[..|w| - 1] == a + b[..|b| - 1];
      assert w[|w| - 1] == b[|b| - 1];
      UsbMountsAppend(dd, a, b[..|b| - 1]);
      match UsbMounts(dd, a)
      case Err(e) =>
      case Ok(x) =>
        match UsbMounts(dd, b[..|b| - 1])
        case Err(e) =>
        case Ok(y) =>
          var p := b[|b| - 1].0;
          if p in dd && MountPath(dd[p]).Ok? && MountPath(dd[p]).value.Some? {
            var t := MountPath(dd[p]).value.value;
            assert (x + y) + [t] == x + (y + [t]);
          }
    }
  }

  /** Never more mount points than devices, and each one is a non-empty
      word without white space. */
  lemma {:induction false} UsbMountsShape(dd: map<string, Info>, devs: seq<(string, string)>)
    requires UsbMounts(dd, devs).Ok?
    ensures |UsbMounts(dd, devs).value| <= |devs|
    ensures forall t :: t in UsbMounts(dd, devs).value ==>
              t != [] && forall i :: 0 <= i < |t| ==> !IsSpace(t[i])
  {
    if devs != [] {
      UsbMountsShape(dd, devs[..|devs| - 1]);
      var p := devs[|devs| - 1].0;
      match MountPath(dd[p])
      case Ok(None) =>
      case Ok(Some(t)) =>
        var paths := dd[p]["mount paths"].s;
        var k := FirstTokenSome(paths);
    }
  }

  // ---------------------------------------------------------------------
  // Reading rsync's output

  /** `re.search('^[^ ]', line)`: the line starts with something other
      than a space (rsync prints a file name there). */
  predicate IsFileLine(line: string) {
    |line| > 0 && line[0] != ' '
  }

  /** The first position at or after `k` that is not a decimal digit. */
  function DigitsEnd(s: string, k: nat): (j: nat)
    requires k <= |s|
    ensures k <= j <= |s|
    decreases |s| - k
  {
    if k == |s| || !IsDigit(s[k]) then k else DigitsEnd(s, k + 1)
  }

  lemma {:induction false} DigitsEndFacts(s: string, k: nat)
    requires k <= |s|
    ensures var j := DigitsEnd(s, k);
            AllDigits(s[k..j]) && (j < |s| ==> !IsDigit(s[j]))
    decreases |s| - k
  {
    if k < |s| && IsDigit(s[k]) {
      DigitsEndFacts(s, k + 1);
      assert s[k..DigitsEnd(s, k)] == [s[k]] + s[k + 1..DigitsEnd(s, k)];
    }
  }

  /** The pattern `\s([0-9]+%)\s` tried at position `i`: the group when
      it matches there.  The digits are all taken, since a `%` cannot
      follow a shorter run of them. */
  function PercentAt(line: string, i: nat): Option<string>
    requires i < |line|
  {
    if !IsSpace(line[i]) then None
    else
      var j := DigitsEnd(line, i + 1);
      if j > i + 1 && j + 1 < |line| && line[j] == '%' && IsSpace(line[j + 1])
      then Some(line[i + 1..j + 1]) else None
  }

  /** `re.search`: the leftmost match at or after `from`. */
  function FindPercent(line: string, from: nat): Option<string>
    decreases |line| - from
  {
    if from >= |line| then None
    else match PercentAt(line, from)
      case Some(g) => Some(g)
      case None => FindPercent(line, from + 1)
  }

  /** A group found is some digits and a percent sign, standing between two
      white-space characters of the line, and no match starts earlier. */
  lemma {:induction false} FindPercentFound(line: string, from: nat) returns (k: nat)
    requires FindPercent(line, from).Some?
    ensures var g := FindPercent(line, from).value;
            from <= k && k + |g| + 1 < |line| && PercentAt(line, k) == Some(g) &&
            IsSpace(line[k]) && line[k + 1..k + |g| + 1] == g && IsSpace(line[k + |g| + 1]) &&
            |g| >= 2 && g[|g| - 1] == '%' && AllDigits(g[..|g| - 1]) &&
            forall i :: from <= i < k ==> PercentAt(line, i).None?
    decreases |line| - from
  {
    if PercentAt(line, from).Some? {
      k := from;
      var j := DigitsEnd(line, from + 1);
      DigitsEndFacts(line, from + 1);
      var g := line[from + 1..j + 1];
      assert g[..|g| - 1] == line[from + 1..j];
    } else {
      k := FindPercentFound(line, from + 1);
    }
  }

  /** No group is found when no position matches. */
  lemma {:induction false} FindPercentNone(line: string, from: nat)
    requires FindPercent(line, from).None?
    ensures forall i :: from <= i < |line| ==> PercentAt(line, i).None?
    decreases |line| - from
  {
    if from < |line| {
      FindPercentNone(line, from + 1);
    }
  }

  /** `"%d.%d %s" % (mntCount, fileCount, pct)`: `fileCount` counts files in
      halves, and `%d` drops the half. */
  function ProgressText(mnt: nat, halves: nat, pct: string): string {
    DecimalString(mnt) + "." + DecimalString(halves / 2) + " " + pct
  }

  /** `fileCount` (in halves) and `progress` while rsync's output is read. */
  datatype RsyncState = RsyncState(halves: nat, progress: string)

  /** A line that is not a file line and holds a percentage. */
  predicate IsPercentLine(line: string) {
    !IsFileLine(line) && FindPercent(line, 0).Some?
  }

  /** One line of rsync's output: a file line adds half a file, a line with
      a percentage sets the progress text, any other line changes
      nothing. */
  function RsyncStep(mnt: nat, st: RsyncState, line: string): RsyncState {
    if IsFileLine(line) then RsyncState(st.halves + 1, st.progress)
    else match FindPercent(line, 0)
      case None => st
      case Some(pct) => RsyncState(st.halves, ProgressText(mnt, st.halves, pct))
  }

  /** The lines of one rsync run, read in order. */
  function RsyncFold(mnt: nat, st: RsyncState, lines: seq<string>): RsyncState
    decreases |lines|
  {
    if lines == [] then st
    else RsyncStep(mnt, RsyncFold(mnt, st, lines[..|lines| - 1]), lines[|lines| - 1])
  }

  /** The number of file lines. */
  function FileLines(lines: seq<string>): nat {
    if lines == [] then 0 else (if IsFileLine(lines[0]) then 1 else 0) + FileLines(lines[1..])
  }

  lemma {:induction false} FileLinesSnoc(lines: seq<string>, x: string)
    ensures FileLines(lines + [x]) == FileLines(lines) + (if IsFileLine(x) then 1 else 0)
  {
    if lines != [] {
      assert (lines + [x])[1..] == lines[1..] + [x];
      FileLinesSnoc(lines[1..], x);
    } else {
      assert [x][1..] == [];
    }
  }

  /** Every file line, and only a file line, adds half a file. */
  lemma {:induction false} RsyncHalves(mnt: nat, st: RsyncState, lines: seq<string>)
    ensures RsyncFold(mnt, st, lines).halves == st.halves + FileLines(lines)
    decreases |lines|
  {
    if lines != [] {
      var front := lines[..|lines| - 1];
      RsyncHalves(mnt, st, front);
      FileLinesSnoc(front, lines[|lines| - 1]);
      assert front + [lines[|lines| - 1]] == lines;
    }
  }

  /** The progress text after a run comes from its last percentage line,
      numbered with the files listed before that line. */
  lemma {:induction false} RsyncLastPercent(mnt: nat, st: RsyncState, lines: seq<string>, k: nat)
    requires k < |lines| && IsPercentLine(lines[k])
    requires forall j :: k < j < |lines| ==> !IsPercentLine(lines[j])
    ensures RsyncFold(mnt, st, lines).progress ==
            ProgressText(mnt, st.halves + FileLines(lines[..k]), FindPercent(lines[k], 0).value)
    decreases |lines|
  {
    var front := lines[..|lines| - 1];
    if k == |lines| - 1 {
      RsyncHalves(mnt, st, front);
    } else {
      RsyncLastPercent(mnt, st, front, k);
      assert front[..k] == lines[..k];
    }
  }

  /** No line of `lines` holds a percentage. */
  predicate NoPercentLine(lines: seq<string>) {
    forall j :: 0 <= j < |lines| ==> !IsPercentLine(lines[j])
  }

  /** Without a percentage line the progress text is left as it was. */
  lemma {:induction false} RsyncNoPercent(mnt: nat, st: RsyncState, lines: seq<string>)
    requires NoPercentLine(lines)
    ensures RsyncFold(mnt, st, lines).progress == st.progress
    decreases |lines|
  {
    if lines != [] {
      RsyncNoPercent(mnt, st, lines[..|lines| - 1]);
    }
  }

  // ---------------------------------------------------------------------
  // The state of a Copy object and what its operations do to it

  /** `PROGRESS_CHARS`: the spinner's frames. */
  const ProgressChars: seq<char> := ['.', '^', '>', 'v', '<']

  /** The fields of a `Copy` object. */
  datatype CopyState = CopyState(progressCount: nat, progress: string,
                                 devDict: DevDict, usbDevices: seq<(string, string)>)

  /** `incrProgress`: count one more step and show the spinner frame for
      the new count. */
  function Incr(s: CopyState): CopyState {
    var c := s.progressCount + 1;
    s.(progressCount := c, progress := [ProgressChars[c % |ProgressChars|]])
  }

  /** The progress text shows the spinner frame of the count. */
  predicate InSync(s: CopyState) {
    s.progress == [ProgressChars[s.progressCount % |ProgressChars|]]
  }

  /** A new `Copy`: count 0 and progress ".", then one `incrProgress`, an
      empty device dictionary and no USB devices. */
  function Fresh(): (r: CopyState)
    ensures r.progressCount == 1 && r.progress == "^" && InSync(r)
    ensures r.devDict.info == map[] && r.usbDevices == []
  {
    Incr(CopyState(0, ".", DevDict([], map[]), []))
  }

  /** `incrProgress` always leaves the spinner in step with the count, and
      five steps bring the spinner back to the same frame. */
  lemma IncrCycle(s: CopyState)
    ensures InSync(Incr(s))
    ensures Incr(s).progressCount == s.progressCount + 1
    ensures InSync(s) ==> Incr(Incr(Incr(Incr(Incr(s))))).progress == s.progress
  {
    var s5 := Incr(Incr(Incr(Incr(Incr(s)))));
    var c := s.progressCount;
    assert s5.progressCount == c + 5;
    assert (c + 5) % |ProgressChars| == c % |ProgressChars|;
    assert s5.progress == [ProgressChars[(c + 5) % |ProgressChars|]];
  }

  /** `s.find(t) >= 0`: `t` occurs in `s`. */
  predicate Contains(s: string, t: string)
    decreases |s|
  {
    |s| >= |t| && (s[..|t|] == t || (|s| > 0 && Contains(s[1..], t)))
  }

  /** `grep -v "dev/disk"`: the lines that do not mention dev/disk, in
      order. */
  function Kept(lines: seq<string>): (r: seq<string>)
    ensures |r| <= |lines|
  {
    if lines == [] then []
    else
      var l := lines[|lines| - 1];
      Kept(lines[..|lines| - 1]) + (if Contains(l, "dev/disk") then [] else [l])
  }

  lemma {:induction false} KeptMeaning(lines: seq<string>)
    ensures forall l :: l in Kept(lines) <==> l in lines && !Contains(l, "dev/disk")
  {
    if lines != [] {
      var front := lines[..|lines| - 1];
      KeptMeaning(front);
      assert lines == front + [lines[|lines| - 1]];
    }
  }

  /** What the system answers while `updateDeviceAttributes` runs: the lines
      of `udisks --enumerate-device-files`, and what `udisks --show-info d`
      prints for each device file (None when it fails). */
  datatype Scan = Scan(listed: seq<string>, showInfo: string -> Option<seq<string>>)

  /** What the system answers to one `mount`, `unmount` or `detach`: whether
      the udisks command succeeds, and what `--show-info` prints after
      it. */
  datatype Udisks = Udisks(succeeds: bool, showInfo: string -> Option<seq<string>>)

  /** `getInfoDict(d)`: a failing `--show-info` raises CalledProcessError. */
  function ShowInfo(showInfo: string -> Option<seq<string>>, d: string): Result<Info> {
    match showInfo(d)
    case None => Err(CalledProcessError)
    case Some(lines) => InfoDict(lines)
  }

  /** The loop of `getDeviceDict` over `devices`: the dictionary built so
      far (or the exception raised), and the state with one `incrProgress`
      per device done. */
  function DeviceDict(s: CopyState, showInfo: string -> Option<seq<string>>, devices: seq<string>)
    : (r: (CopyState, Result<DevDict>))
    ensures r.1.Ok? ==> WellFormed(r.1.value)
    decreases |devices|
  {
    if devices == [] then (s, Ok(DevDict([], map[])))
    else
      var d := devices[|devices| - 1];
      var (s1, acc) := DeviceDict(s, showInfo, devices[..|devices| - 1]);
      match acc
      case Err(e) => (s1, Err(e))
      case Ok(dd) =>
        match ShowInfo(showInfo, d)
        case Err(e) => (s1, Err(e))
        case Ok(i) => (Incr(s1), Ok(Put(dd, d, i)))
  }

  /** `getDeviceDict`: when grep selects no line it exits with status 1 and
      `check_output` raises. */
  function GetDeviceDictSpec(s: CopyState, scan: Scan): (CopyState, Result<DevDict>) {
    var devices := Kept(scan.listed);
    if devices == [] then (s, Err(CalledProcessError))
    else DeviceDict(s, scan.showInfo, devices)
  }

  /** `updateDeviceAttributes`: one `incrProgress`, a new device dictionary,
      then the removable file systems chosen from it. */
  function UpdateSpec(s: CopyState, scan: Scan): (CopyState, Outcome) {
    var s1 := Incr(s);
    var (s2, r) := GetDeviceDictSpec(s1, scan);
    match r
    case Err(e) => (s2, Raise(e))
    case Ok(dd) =>
      var s3 := s2.(devDict := dd);
      match Removables(dd, dd.order)
      case Err(e) => (s3, Raise(e))
      case Ok(pairs) => (s3.(usbDevices := pairs), Pass)
  }

  /** The udisks commands `copy` issues on a (partition, drive) pair. */
  datatype Command = Mount | Unmount | Detach

  /** Whether the command is needed: `mount` when the partition is not
      mounted, `unmount` when it is, `detach` when the drive is
      detachable.  Reading the entry raises as Python's lookups would. */
  function Needed(dd: DevDict, cmd: Command, tpl: (string, string)): Result<bool> {
    var dev := if cmd == Detach then tpl.1 else tpl.0;
    if dev !in dd.info then Err(KeyError(dev))
    else
      var i := Dict(dd.info[dev]);
      match cmd
      case Mount =>
        (match Lookup(i, "is mounted")
         case Err(e) => Err(e)
         case Ok(v) => Ok(v != Str("1")))
      case Unmount =>
        (match Lookup(i, "is mounted")
         case Err(e) => Err(e)
         case Ok(v) => Ok(v == Str("1")))
      case Detach =>
        match Lookup(i, "drive")
        case Err(e) => Err(e)
        case Ok(drive) =>
          match Lookup(drive, "detachable")
          case Err(e) => Err(e)
          case Ok(v) => Ok(v == Str("1"))
  }

  /** `self.devDict[d] = self.getInfoDict(d)`. */
  function RefreshSpec(s: CopyState, showInfo: string -> Option<seq<string>>, d: string): (CopyState, Outcome) {
    match ShowInfo(showInfo, d)
    case Err(e) => (s, Raise(e))
    case Ok(i) => (s.(devDict := Put(s.devDict, d, i)), Pass)
  }

  /** `mount`, `unmount` and `detach`: the udisks command when it is
      needed, then both device files read again in the order of the pair,
      then one `incrProgress`. */
  function CommandSpec(s: CopyState, cmd: Command, tpl: (string, string), env: Udisks): (CopyState, Outcome) {
    match Needed(s.devDict, cmd, tpl)
    case Err(e) => (s, Raise(e))
    case Ok(needed) =>
      if needed && !env.succeeds then (s, Raise(CalledProcessError))
      else
        var (s1, o1) := RefreshSpec(s, env.showInfo, tpl.0);
        if o1.Raise? then (s1, o1)
        else
          var (s2, o2) := RefreshSpec(s1, env.showInfo, tpl.1);
          if o2.Raise? then (s2, o2) else (Incr(s2), Pass)
  }

  /** `"%s" % v`.  A nested dictionary is shown as "{...}" rather than by
      its repr. */
  function PyStr(v: Value): string {
    match v
    case Str(t) => t
    case Null => "None"
    case Dict(_) => "{...}"
  }

  /** The `try`/`except` around a command in `copy`: any exception is
      caught, and the handler reads the partition's label (which may raise
      in turn); a failed mount or unmount shows it in the progress text, a
      failed detach only prints it. */
  function TrySpec(s: CopyState, cmd: Command, tpl: (string, string), env: Udisks): (CopyState, Outcome) {
    var (s1, o) := CommandSpec(s, cmd, tpl, env);
    if o.Pass? then (s1, Pass)
    else if tpl.0 !in s1.devDict.info then (s1, Raise(KeyError(tpl.0)))
    else
      match Lookup(Dict(s1.devDict.info[tpl.0]), "label")
      case Err(e) => (s1, Raise(e))
      case Ok(name) =>
        match cmd
        case Mount => (s1.(progress := PyStr(name) + " mount fail"), Pass)
        case Unmount => (s1.(progress := PyStr(name) + " unmount fail"), Pass)
        case Detach => (s1, Pass)
  }

  /** The mount loop of `copy`: the k-th pair meets the k-th answer. */
  function MountAllSpec(s: CopyState, devs: seq<(string, string)>, envs: nat -> Udisks): (CopyState, Outcome)
    decreases |devs|
  {
    if devs == [] then (s, Pass)
    else
      var (s1, o) := MountAllSpec(s, devs[..|devs| - 1], envs);
      if o.Raise? then (s1, o) else TrySpec(s1, Mount, devs[|devs| - 1], envs(|devs| - 1))
  }

  /** The progress text after rsync ran for each mount point of `ms` in
      turn, numbered from 1; `rsync(n, mnt)` is what the n-th run prints. */
  function RsyncAll(progress: string, ms: seq<string>, rsync: (nat, string) -> seq<string>): string
    decreases |ms|
  {
    if ms == [] then progress
    else
      var before := RsyncAll(progress, ms[..|ms| - 1], rsync);
      RsyncFold(|ms|, RsyncState(0, before), rsync(|ms|, ms[|ms| - 1])).progress
  }

  /** The copy loop of `copy`. */
  function CopyFilesSpec(s: CopyState, rsync: (nat, string) -> seq<string>): (CopyState, Outcome) {
    match UsbMounts(s.devDict.info, s.usbDevices)
    case Err(e) => (s, Raise(e))
    case Ok(ms) => (s.(progress := RsyncAll(s.progress, ms, rsync)), Pass)
  }

  /** The unmount-and-detach loop of `copy`. */
  function UnmountAllSpec(s: CopyState, devs: seq<(string, string)>, unmounts: nat -> Udisks, detaches: nat -> Udisks)
    : (CopyState, Outcome)
    decreases |devs|
  {
    if devs == [] then (s, Pass)
    else
      var k := |devs| - 1;
      var (s1, o1) := UnmountAllSpec(s, devs[..k], unmounts, detaches);
      if o1.Raise? then (s1, o1) else UnmountOneSpec(s1, devs[k], unmounts(k), detaches(k))
  }

  /** One pass of the unmount-and-detach loop: the detach is tried once
      the unmount's `try` statement has finished. */
  function UnmountOneSpec(s: CopyState, tpl: (string, string), unmount: Udisks, detach: Udisks): (CopyState, Outcome) {
    var (s1, o1) := TrySpec(s, Unmount, tpl, unmount);
    if o1.Raise? then (s1, o1) else TrySpec(s1, Detach, tpl, detach)
  }

  /** Everything the system answers during one `copy`. */
  datatype CopyEnv = CopyEnv(scanBefore: Scan, mounts: nat -> Udisks, rsync: (nat, string) -> seq<string>,
                             scanAfter: Scan, unmounts: nat -> Udisks, detaches: nat -> Udisks)

  /** `copy`: find and mount the sticks, rsync to every mount point, find
      the sticks again, unmount and detach them, and show "DONE". */
  function CopySpec(s: CopyState, env: CopyEnv): (r: (CopyState, Outcome))
    ensures r.1.Pass? ==> r.0.progress == "DONE"
  {
    var (s1, o1) := UpdateSpec(s, env.scanBefore);
    if o1.Raise? then (s1, o1) else
    var (s2, o2) := MountAllSpec(s1, s1.usbDevices, env.mounts);
    if o2.Raise? then (s2, o2) else
    var (s3, o3) := CopyFilesSpec(s2, env.rsync);
    if o3.Raise? then (s3, o3) else
    var (s4, o4) := UpdateSpec(s3, env.scanAfter);
    if o4.Raise? then (s4, o4) else
    var (s5, o5) := UnmountAllSpec(s4, s4.usbDevices, env.unmounts, env.detaches);
    if o5.Raise? then (s5, o5) else (s5.(progress := "DONE"), Pass)
  }

  // ---------------------------------------------------------------------
  // Properties of the operations

  /** When `getDeviceDict`'s loop returns, the dictionary holds exactly the
      listed devices, each with the information udisks printed for it. */
  lemma {:induction false} DeviceDictEntries(s: CopyState, showInfo: string -> Option<seq<string>>, devices: seq<string>)
    requires DeviceDict(s, showInfo, devices).1.Ok?
    ensures var dd := DeviceDict(s, showInfo, devices).1.value;
            (forall d :: d in dd.info <==> d in devices) &&
            (forall d :: d in dd.info ==> ShowInfo(showInfo, d) == Ok(dd.info[d]))
    decreases |devices|
  {
    if devices != [] {
      var front := devices[..|devices| - 1];
      var d := devices[|devices| - 1];
      DeviceDictEntries(s, showInfo, front);
      var dd := DeviceDict(s, showInfo, front).1.value;
      var i := ShowInfo(showInfo, d).value;
      assert DeviceDict(s, showInfo, devices).1.value.info == dd.info[d := i];
      assert forall x :: x in devices <==> x in front || x == d;
    }
  }

  /** Meanwhile the count went up once per device and nothing else
      changed. */
  lemma {:induction false} DeviceDictCount(s: CopyState, showInfo: string -> Option<seq<string>>, devices: seq<string>)
    requires DeviceDict(s, showInfo, devices).1.Ok?
    ensures var s1 := DeviceDict(s, showInfo, devices).0;
            s1.progressCount == s.progressCount + |devices| &&
            s1.devDict == s.devDict && s1.usbDevices == s.usbDevices &&
            (devices == [] ==> s1 == s) && (devices != [] ==> InSync(s1))
    decreases |devices|
  {
    if devices != [] {
      var front := devices[..|devices| - 1];
      DeviceDictCount(s, showInfo, front);
      var s1 := DeviceDict(s, showInfo, front).0;
      assert DeviceDict(s, showInfo, devices).0 == Incr(s1);
    }
  }

  /** When `updateDeviceAttributes` returns, the count went up once for
      itself and once per device file grep kept, the dictionary holds
      exactly those device files, and `usbDevices` holds exactly the pairs
      the pair rule chooses among them. */
  lemma UpdateMeaning(s: CopyState, scan: Scan)
    requires UpdateSpec(s, scan).1.Pass?
    ensures var s1 := UpdateSpec(s, scan).0;
            s1.progressCount == s.progressCount + 1 + |Kept(scan.listed)| && InSync(s1) &&
            (forall d :: d in s1.devDict.info <==> d in scan.listed && !Contains(d, "dev/disk")) &&
            (forall d :: d in s1.devDict.info ==> ShowInfo(scan.showInfo, d) == Ok(s1.devDict.info[d])) &&
            (forall p, d :: (p, d) in s1.usbDevices <==>
               p in s1.devDict.info && d in s1.devDict.info && Chosen(s1.devDict.info[p], s1.devDict.info[d]))
  {
    var devices := Kept(scan.listed);
    KeptMeaning(scan.listed);
    DeviceDictEntries(Incr(s), scan.showInfo, devices);
    DeviceDictCount(Incr(s), scan.showInfo, devices);
    RemovablesExact(DeviceDict(Incr(s), scan.showInfo, devices).1.value);
  }

  /** With nothing left after grep, `updateDeviceAttributes` raises
      CalledProcessError after its own `incrProgress`. */
  lemma UpdateNoDevices(s: CopyState, scan: Scan)
    requires forall l :: l in scan.listed ==> Contains(l, "dev/disk")
    ensures UpdateSpec(s, scan) == (Incr(s), Raise(CalledProcessError))
  {
    KeptNone(scan.listed);
  }

  /** grep keeps nothing when every line mentions dev/disk. */
  lemma {:induction false} KeptNone(lines: seq<string>)
    requires forall l :: l in lines ==> Contains(l, "dev/disk")
    ensures Kept(lines) == []
  {
    if lines != [] {
      var front := lines[..|lines| - 1];
      assert forall l :: l in front ==> l in lines;
      KeptNone(front);
      assert lines[|lines| - 1] in lines;
    }
  }

  /** A command that returns has read both device files again and counted
      one step; one that raises has left the count, the progress text and
      the USB devices alone. */
  lemma CommandMeaning(s: CopyState, cmd: Command, tpl: (string, string), env: Udisks)
    ensures var (s1, o) := CommandSpec(s, cmd, tpl, env);
            s1.usbDevices == s.usbDevices &&
            (o.Pass? ==>
               s1.progressCount == s.progressCount + 1 && InSync(s1) &&
               ShowInfo(env.showInfo, tpl.1) == Ok(s1.devDict.info[tpl.1]) &&
               (tpl.0 != tpl.1 ==> ShowInfo(env.showInfo, tpl.0) == Ok(s1.devDict.info[tpl.0])) &&
               (forall k :: k in s1.devDict.info && k != tpl.0 && k != tpl.1 ==>
                  k in s.devDict.info && s1.devDict.info[k] == s.devDict.info[k])) &&
            (o.Raise? ==> s1.progressCount == s.progressCount && s1.progress == s.progress)
  {
    match Needed(s.devDict, cmd, tpl)
    case Err(_) =>
    case Ok(needed) =>
      if !(needed && !env.succeeds) {
        var (s1, o1) := RefreshSpec(s, env.showInfo, tpl.0);
        RefreshMeaning(s, env.showInfo, tpl.0);
        if o1.Pass? {
          RefreshMeaning(s1, env.showInfo, tpl.1);
        }
      }
  }

  /** Reading one device file again replaces that entry and nothing else. */
  lemma RefreshMeaning(s: CopyState, showInfo: string -> Option<seq<string>>, d: string)
    ensures var (s1, o) := RefreshSpec(s, showInfo, d);
            s1.usbDevices == s.usbDevices && s1.progressCount == s.progressCount && s1.progress == s.progress &&
            (o.Raise? ==> s1 == s) &&
            (o.Pass? ==> d in s1.devDict.info && ShowInfo(showInfo, d) == Ok(s1.devDict.info[d])) &&
            (forall k :: k in s1.devDict.info && k != d ==> k in s.devDict.info && s1.devDict.info[k] == s.devDict.info[k])
  {
  }

  /** When the command is not needed, whether it would have failed does
      not matter. */
  lemma NotNeededIgnoresCommand(s: CopyState, cmd: Command, tpl: (string, string), env: Udisks)
    requires Needed(s.devDict, cmd, tpl) == Ok(false)
    ensures CommandSpec(s, cmd, tpl, env) == CommandSpec(s, cmd, tpl, env.(succeeds := true))
    ensures CommandSpec(s, cmd, tpl, env) == CommandSpec(s, cmd, tpl, env.(succeeds := false))
  {
  }

  /** A needed command that fails raises CalledProcessError before reading
      anything again. */
  lemma NeededFails(s: CopyState, cmd: Command, tpl: (string, string), env: Udisks)
    requires Needed(s.devDict, cmd, tpl) == Ok(true) && !env.succeeds
    ensures CommandSpec(s, cmd, tpl, env) == (s, Raise(CalledProcessError))
  {
  }

  /** The `except` branches: a failed mount or unmount names the partition's
      label in the progress text, a failed detach leaves the progress text
      as it was, and processing goes on unless reading the label raises. */
  lemma TryMeaning(s: CopyState, cmd: Command, tpl: (string, string), env: Udisks)
    requires CommandSpec(s, cmd, tpl, env).1.Raise?
    ensures var s1 := CommandSpec(s, cmd, tpl, env).0;
            var (s2, o) := TrySpec(s, cmd, tpl, env);
            (o.Raise? <==> tpl.0 !in s1.devDict.info || Field(Dict(s1.devDict.info[tpl.0]), ["label"]).None?) &&
            (o.Pass? ==>
               s2.progressCount == s.progressCount && s2.devDict == s1.devDict &&
               s2.progress == match cmd
                 case Mount => PyStr(Field(Dict(s1.devDict.info[tpl.0]), ["label"]).value) + " mount fail"
                 case Unmount => PyStr(Field(Dict(s1.devDict.info[tpl.0]), ["label"]).value) + " unmount fail"
                 case Detach => s.progress)
  {
    CommandMeaning(s, cmd, tpl, env);
  }

  /** The mount loop never changes which sticks `copy` works on. */
  lemma {:induction false} MountAllKeepsDevices(s: CopyState, devs: seq<(string, string)>, envs: nat -> Udisks)
    ensures MountAllSpec(s, devs, envs).0.usbDevices == s.usbDevices
    decreases |devs|
  {
    if devs != [] {
      var front := devs[..|devs| - 1];
      MountAllKeepsDevices(s, front, envs);
      var s1 := MountAllSpec(s, front, envs).0;
      CommandMeaning(s1, Mount, devs[|devs| - 1], envs(|devs| - 1));
    }
  }

  /** Nor does the unmount-and-detach loop. */
  lemma {:induction false} UnmountAllKeepsDevices(s: CopyState, devs: seq<(string, string)>,
                                                  unmounts: nat -> Udisks, detaches: nat -> Udisks)
    ensures UnmountAllSpec(s, devs, unmounts, detaches).0.usbDevices == s.usbDevices
    decreases |devs|
  {
    if devs != [] {
      var k := |devs| - 1;
      UnmountAllKeepsDevices(s, devs[..k], unmounts, detaches);
      var s1 := UnmountAllSpec(s, devs[..k], unmounts, detaches).0;
      CommandMeaning(s1, Unmount, devs[k], unmounts(k));
      var s2 := TrySpec(s1, Unmount, devs[k], unmounts(k)).0;
      CommandMeaning(s2, Detach, devs[k], detaches(k));
    }
  }

  /** Without a percentage line in any run, the copy loop leaves the
      progress text as it was. */
  lemma {:induction false} RsyncAllNoPercent(progress: string, ms: seq<string>, rsync: (nat, string) -> seq<string>)
    requires forall i :: 0 <= i < |ms| ==> NoPercentLine(rsync(i + 1, ms[i]))
    ensures RsyncAll(progress, ms, rsync) == progress
    decreases |ms|
  {
    if ms != [] {
      var front := ms[..|ms| - 1];
      assert forall i :: 0 <= i < |front| ==> front[i] == ms[i];
      RsyncAllNoPercent(progress, front, rsync);
      RsyncNoPercent(|ms|, RsyncState(0, progress), rsync(|ms|, ms[|ms| - 1]));
    }
  }

  /** After the copy loop, the progress text comes from the last
      percentage line of the last run: the number of mount points, a dot,
      the files listed before that line in that run, and the
      percentage. */
  lemma CopyFilesLastPercent(s: CopyState, rsync: (nat, string) -> seq<string>, k: nat)
    requires UsbMounts(s.devDict.info, s.usbDevices).Ok? && UsbMounts(s.devDict.info, s.usbDevices).value != []
    requires var ms := UsbMounts(s.devDict.info, s.usbDevices).value;
             var lines := rsync(|ms|, ms[|ms| - 1]);
             k < |lines| && IsPercentLine(lines[k]) &&
             forall j :: k < j < |lines| ==> !IsPercentLine(lines[j])
    ensures var ms := UsbMounts(s.devDict.info, s.usbDevices).value;
            var lines := rsync(|ms|, ms[|ms| - 1]);
            CopyFilesSpec(s, rsync) ==
              (s.(progress := ProgressText(|ms|, FileLines(lines[..k]), FindPercent(lines[k], 0).value)), Pass)
  {
    var ms := UsbMounts(s.devDict.info, s.usbDevices).value;
    var lines := rsync(|ms|, ms[|ms| - 1]);
    var before := RsyncAll(s.progress, ms[..|ms| - 1], rsync);
    RsyncLastPercent(|ms|, RsyncState(0, before), lines, k);
    assert RsyncAll(s.progress, ms, rsync) == RsyncFold(|ms|, RsyncState(0, before), lines).progress;
  }

  /** `copy` with nothing for grep to keep raises CalledProcessError at the
      start, after a single `incrProgress`, and mounts nothing. */
  lemma CopyNoDevices(s: CopyState, env: CopyEnv)
    requires forall l :: l in env.scanBefore.listed ==> Contains(l, "dev/disk")
    ensures CopySpec(s, env) == (Incr(s), Raise(CalledProcessError))
  {
    UpdateNoDevices(s, env.scanBefore);
  }

  // ---------------------------------------------------------------------
  // Once a loop has raised, the items after it do not matter

  lemma {:induction false} DeviceDictSticks(s: CopyState, showInfo: string -> Option<seq<string>>, devices: seq<string>, i: nat)
    requires i <= |devices| && DeviceDict(s, showInfo, devices[..i]).1.Err?
    ensures DeviceDict(s, showInfo, devices) == DeviceDict(s, showInfo, devices[..i])
    decreases |devices|
  {
    if i < |devices| {
      var front := devices[..|devices| - 1];
      assert front[..i] == devices[..i];
      DeviceDictSticks(s, showInfo, front, i);
    } else {
      assert devices[..i] == devices;
    }
  }

  lemma {:induction false} ParentsOfSticks(dd: DevDict, p: string, dObj: Value, ds: seq<string>, j: nat)
    requires forall d :: d in ds ==> d in dd.info
    requires j <= |ds| && ParentsOf(dd, p, dObj, ds[..j]).Err?
    ensures ParentsOf(dd, p, dObj, ds) == ParentsOf(dd, p, dObj, ds[..j])
    decreases |ds|
  {
    if j < |ds| {
      var front := ds[..|ds| - 1];
      assert front[..j] == ds[..j];
      ParentsOfSticks(dd, p, dObj, front, j);
    } else {
      assert ds[..j] == ds;
    }
  }

  lemma {:induction false} RemovablesSticks(dd: DevDict, ps: seq<string>, i: nat)
    requires forall p :: p in ps ==> p in dd.info
    requires forall d :: d in dd.order ==> d in dd.info
    requires i <= |ps| && Removables(dd, ps[..i]).Err?
    ensures Removables(dd, ps) == Removables(dd, ps[..i])
    decreases |ps|
  {
    if i < |ps| {
      var front := ps[..|ps| - 1];
      assert front[..i] == ps[..i];
      RemovablesSticks(dd, front, i);
    } else {
      assert ps[..i] == ps;
    }
  }

  lemma {:induction false} MountAllSticks(s: CopyState, devs: seq<(string, string)>, envs: nat -> Udisks, i: nat)
    requires i <= |devs| && MountAllSpec(s, devs[..i], envs).1.Raise?
    ensures MountAllSpec(s, devs, envs) == MountAllSpec(s, devs[..i], envs)
    decreases |devs|
  {
    if i < |devs| {
      var front := devs[..|devs| - 1];
      assert front[..i] == devs[..i];
      MountAllSticks(s, front, envs, i);
    } else {
      assert devs[..i] == devs;
    }
  }

  lemma {:induction false} UnmountAllSticks(s: CopyState, devs: seq<(string, string)>, unmounts: nat -> Udisks,
                                            detaches: nat -> Udisks, i: nat)
    requires i <= |devs| && UnmountAllSpec(s, devs[..i], unmounts, detaches).1.Raise?
    ensures UnmountAllSpec(s, devs, unmounts, detaches) == UnmountAllSpec(s, devs[..i], unmounts, detaches)
    decreases |devs|
  {
    if i < |devs| {
      var front := devs[..|devs| - 1];
      assert front[..i] == devs[..i];
      UnmountAllSticks(s, front, unmounts, detaches, i);
    } else {
      assert devs[..i] == devs;
    }
  }

  /** One more device for the inner loop of `getRemovableFilesystems`. */
  lemma ParentsOfNext(dd: DevDict, p: string, dObj: Value, ds: seq<string>, j: nat, acc: seq<(string, string)>)
    requires forall d :: d in ds ==> d in dd.info
    requires j < |ds| && ParentsOf(dd, p, dObj, ds[..j]) == Ok(acc)
    ensures ParentsOf(dd, p, dObj, ds[..j + 1]) ==
            match IsParent(dd.info[ds[j]], dObj)
            case Err(e) => Err(e)
            case Ok(b) => Ok(if b then acc + [(p, ds[j])] else acc)
  {
    assert ds[..j + 1][..j] == ds[..j];
  }

  /** One more partition for the outer loop. */
  lemma RemovablesNext(dd: DevDict, ps: seq<string>, i: nat, acc: seq<(string, string)>)
    requires WellFormed(dd) && ps == dd.order
    requires i < |ps| && Removables(dd, ps[..i]) == Ok(acc)
    ensures Removables(dd, ps[..i + 1]) ==
            match PartitionTarget(dd.info[ps[i]])
            case Err(e) => Err(e)
            case Ok(None) => Ok(acc)
            case Ok(Some(dObj)) =>
              match ParentsOf(dd, ps[i], dObj, dd.order)
              case Err(e) => Err(e)
              case Ok(more) => Ok(acc + more)
  {
    assert ps[..i + 1][..i] == ps[..i];
  }

  /** One more pair for the mount loop. */
  lemma MountAllNext(s: CopyState, devs: seq<(string, string)>, envs: nat -> Udisks, i: nat)
    requires i < |devs| && MountAllSpec(s, devs[..i], envs).1.Pass?
    ensures MountAllSpec(s, devs[..i + 1], envs) ==
            TrySpec(MountAllSpec(s, devs[..i], envs).0, Mount, devs[i], envs(i))
  {
    assert devs[..i + 1][..i] == devs[..i];
  }

  /** One more pair for the unmount-and-detach loop. */
  lemma UnmountAllNext(s: CopyState, devs: seq<(string, string)>, unmounts: nat -> Udisks,
                       detaches: nat -> Udisks, i: nat)
    requires i < |devs| && UnmountAllSpec(s, devs[..i], unmounts, detaches).1.Pass?
    ensures UnmountAllSpec(s, devs[..i + 1], unmounts, detaches) ==
            UnmountOneSpec(UnmountAllSpec(s, devs[..i], unmounts, detaches).0, devs[i], unmounts(i), detaches(i))
  {
    assert devs[..i + 1][..i] == devs[..i];
  }

  // ---------------------------------------------------------------------
  // The Copy object

  /** A `Copy` object: the spinner's count and text, the device
      dictionary, and the (partition, drive) pairs of the USB sticks. */
  class Copy {
    var progressCount: nat
    var progress: string
    var devDict: DevDict
    var usbDevices: seq<(string, string)>

    /** The object's fields as a value. */
    function State(): CopyState
      reads this
    {
      CopyState(progressCount, progress, devDict, usbDevices)
    }

    constructor()
      ensures State() == Fresh()
    {
      progressCount := 0;
      progress := ".";
      devDict := DevDict([], map[]);
      usbDevices := [];
      new;
      IncrProgress();
    }

    method IncrProgress()
      modifies this
      ensures State() == Incr(old(State()))
    {
      progressCount := progressCount + 1;
      progress := [ProgressChars[progressCount % |ProgressChars|]];
    }

    /** `getInfoDict(d)`, with udisks' answer for every device file given
        as `showInfo`. */
    method GetInfoDict(showInfo: string -> Option<seq<string>>, d: string) returns (r: Result<Info>)
      ensures r == ShowInfo(showInfo, d)
    {
      match showInfo(d) {
        case None => return Err(CalledProcessError);
        case Some(lines) => r := ParseInfoDict(lines);
      }
    }

    method GetDeviceDict(scan: Scan) returns (r: Result<DevDict>)
      modifies this
      ensures (State(), r) == GetDeviceDictSpec(old(State()), scan)
    {
      var devices := Kept(scan.listed);
      if devices == [] {
        return Err(CalledProcessError);
      }
      var dd := DevDict([], map[]);
      var i := 0;
      while i < |devices|
        invariant 0 <= i <= |devices|
        invariant DeviceDict(old(State()), scan.showInfo, devices[..i]) == (State(), Ok(dd))
      {
        assert devices[..i + 1][..i] == devices[..i];
        var info := GetInfoDict(scan.showInfo, devices[i]);
        match info {
          case Err(e) =>
            DeviceDictSticks(old(State()), scan.showInfo, devices, i + 1);
            return Err(e);
          case Ok(x) =>
            dd := Put(dd, devices[i], x);
        }
        IncrProgress();
        i := i + 1;
      }
      assert devices[..i] == devices;
      return Ok(dd);
    }

    /** The inner loop of `getRemovableFilesystems`: the drives holding
        `dObj`, paired with the partition `pKey`. */
    method ParentsOfPartition(pKey: string, dObj: Value) returns (r: Result<seq<(string, string)>>)
      requires WellFormed(devDict)
      ensures r == ParentsOf(devDict, pKey, dObj, devDict.order)
    {
      var keys := devDict.order;
      var more := [];
      var j := 0;
      while j < |keys|
        invariant 0 <= j <= |keys|
        invariant ParentsOf(devDict, pKey, dObj, keys[..j]) == Ok(more)
      {
        ParentsOfNext(devDict, pKey, dObj, keys, j, more);
        match IsParent(devDict.info[keys[j]], dObj) {
          case Err(e) =>
            ParentsOfSticks(devDict, pKey, dObj, keys, j + 1);
            return Err(e);
          case Ok(b) =>
            if b {
              more := more + [(pKey, keys[j])];
            }
        }
        j := j + 1;
      }
      assert keys[..j] == keys;
      return Ok(more);
    }

    method GetRemovableFilesystems() returns (r: Result<seq<(string, string)>>)
      requires WellFormed(devDict)
      ensures r == Removables(devDict, devDict.order)
    {
      var keys := devDict.order;
      var myList := [];
      var i := 0;
      while i < |keys|
        invariant 0 <= i <= |keys|
        invariant Removables(devDict, keys[..i]) == Ok(myList)
      {
        var pKey := keys[i];
        RemovablesNext(devDict, keys, i, myList);
        match PartitionTarget(devDict.info[pKey]) {
          case Err(e) =>
            RemovablesSticks(devDict, keys, i + 1);
            return Err(e);
          case Ok(None) =>
          case Ok(Some(dObj)) =>
            var more := ParentsOfPartition(pKey, dObj);
            match more {
              case Err(e) =>
                RemovablesSticks(devDict, keys, i + 1);
                return Err(e);
              case Ok(m) =>
                myList := myList + m;
            }
        }
        i := i + 1;
      }
      assert keys[..i] == keys;
      return Ok(myList);
    }

    method UpdateDeviceAttributes(scan: Scan) returns (o: Outcome)
      modifies this
      ensures (State(), o) == UpdateSpec(old(State()), scan)
    {
      IncrProgress();
      ghost var s1 := State();
      var r := GetDeviceDict(scan);
      assert (State(), r) == GetDeviceDictSpec(s1, scan);
      match r {
        case Err(e) => return Raise(e);
        case Ok(dd) =>
          assert WellFormed(dd);
          devDict := dd;
      }
      var pairs := GetRemovableFilesystems();
      match pairs {
        case Err(e) => return Raise(e);
        case Ok(l) => usbDevices := l;
      }
      return Pass;
    }

    /** `self.devDict[d] = self.getInfoDict(d)`. */
    method Refresh(showInfo: string -> Option<seq<string>>, d: string) returns (o: Outcome)
      modifies this
      ensures (State(), o) == RefreshSpec(old(State()), showInfo, d)
    {
      var r := GetInfoDict(showInfo, d);
      match r {
        case Err(e) => return Raise(e);
        case Ok(i) =>
          devDict := Put(devDict, d, i);
          return Pass;
      }
    }

    /** `mount`, `unmount` and `detach`. */
    method RunCommand(cmd: Command, tpl: (string, string), env: Udisks) returns (o: Outcome)
      modifies this
      ensures (State(), o) == CommandSpec(old(State()), cmd, tpl, env)
    {
      match Needed(devDict, cmd, tpl) {
        case Err(e) => return Raise(e);
        case Ok(needed) =>
          if needed && !env.succeeds {
            return Raise(CalledProcessError);
          }
      }
      o := Refresh(env.showInfo, tpl.0);
      if o.Raise? {
        return;
      }
      o := Refresh(env.showInfo, tpl.1);
      if o.Raise? {
        return;
      }
      IncrProgress();
    }

    /** One command inside `copy`'s `try`/`except`. */
    method TryCommand(cmd: Command, tpl: (string, string), env: Udisks) returns (o: Outcome)
      modifies this
      ensures (State(), o) == TrySpec(old(State()), cmd, tpl, env)
    {
      o := RunCommand(cmd, tpl, env);
      if o.Pass? {
        return;
      }
      if tpl.0 !in devDict.info {
        return Raise(KeyError(tpl.0));
      }
      match Lookup(Dict(devDict.info[tpl.0]), "label") {
        case Err(e) => return Raise(e);
        case Ok(name) =>
          match cmd {
            case Mount => progress := PyStr(name) + " mount fail";
            case Unmount => progress := PyStr(name) + " unmount fail";
            case Detach =>
          }
          return Pass;
      }
    }

    /** The mount loop of `copy`. */
    method MountAll(envs: nat -> Udisks) returns (o: Outcome)
      modifies this
      ensures (State(), o) == MountAllSpec(old(State()), old(usbDevices), envs)
    {
      var devs := usbDevices;
      var i := 0;
      while i < |devs|
        invariant 0 <= i <= |devs|
        invariant MountAllSpec(old(State()), devs[..i], envs) == (State(), Pass)
      {
        MountAllNext(old(State()), devs, envs, i);
        o := TryCommand(Mount, devs[i], envs(i));
        if o.Raise? {
          MountAllSticks(old(State()), devs, envs, i + 1);
          return;
        }
        i := i + 1;
      }
      assert devs[..i] == devs;
      return Pass;
    }

    method GetUsbMounts(deviceList: seq<(string, string)>) returns (r: Result<seq<string>>)
      ensures r == UsbMounts(devDict.info, deviceList)
    {
      var mntList := [];
      var i := 0;
      while i < |deviceList|
        invariant 0 <= i <= |deviceList|
        invariant UsbMounts(devDict.info, deviceList[..i]) == Ok(mntList)
      {
        assert deviceList[..i + 1][..i] == deviceList[..i];
        var p := deviceList[i].0;
        if p !in devDict.info {
          UsbMountsAppend(devDict.info, deviceList[..i + 1], deviceList[i + 1..]);
          assert deviceList[..i + 1] + deviceList[i + 1..] == deviceList;
          return Err(KeyError(p));
        }
        match MountPath(devDict.info[p]) {
          case Err(e) =>
            UsbMountsAppend(devDict.info, deviceList[..i + 1], deviceList[i + 1..]);
            assert deviceList[..i + 1] + deviceList[i + 1..] == deviceList;
            return Err(e);
          case Ok(None) =>
          case Ok(Some(t)) =>
            mntList := mntList + [t];
        }
        i := i + 1;
      }
      assert deviceList[..i] == deviceList;
      return Ok(mntList);
    }

    /** The lines read from the `mntCount`-th rsync run. */
    method ReadRsync(mntCount: nat, lines: seq<string>)
      modifies this
      ensures State() == old(State()).(progress := RsyncFold(mntCount, RsyncState(0, old(progress)), lines).progress)
    {
      var fileCount: nat := 0;
      var i := 0;
      while i < |lines|
        invariant 0 <= i <= |lines|
        invariant RsyncFold(mntCount, RsyncState(0, old(progress)), lines[..i]) == RsyncState(fileCount, progress)
        invariant State() == old(State()).(progress := progress)
      {
        assert lines[..i + 1][..i] == lines[..i];
        var line := lines[i];
        if IsFileLine(line) {
          fileCount := fileCount + 1;
        } else {
          match FindPercent(line, 0) {
            case Some(pct) => progress := ProgressText(mntCount, fileCount, pct);
            case None =>
          }
        }
        i := i + 1;
      }
      assert lines[..i] == lines;
    }

    /** The copy loop of `copy`. */
    method CopyFiles(rsync: (nat, string) -> seq<string>) returns (o: Outcome)
      modifies this
      ensures (State(), o) == CopyFilesSpec(old(State()), rsync)
    {
      var mounts := GetUsbMounts(usbDevices);
      match mounts {
        case Err(e) => return Raise(e);
        case Ok(ms) =>
          var mntCount := 0;
          while mntCount < |ms|
            invariant 0 <= mntCount <= |ms|
            invariant State() == old(State()).(progress := RsyncAll(old(progress), ms[..mntCount], rsync))
          {
            assert ms[..mntCount + 1][..mntCount] == ms[..mntCount];
            var mnt := ms[mntCount];
            mntCount := mntCount + 1;
            ReadRsync(mntCount, rsync(mntCount, mnt));
          }
          assert ms[..mntCount] == ms;
          return Pass;
      }
    }

    /** The body of the unmount-and-detach loop. */
    method UnmountOne(tpl: (string, string), unmount: Udisks, detach: Udisks) returns (o: Outcome)
      modifies this
      ensures (State(), o) == UnmountOneSpec(old(State()), tpl, unmount, detach)
    {
      o := TryCommand(Unmount, tpl, unmount);
      if o.Pass? {
        o := TryCommand(Detach, tpl, detach);
      }
    }

    /** The unmount-and-detach loop of `copy`. */
    method UnmountAll(unmounts: nat -> Udisks, detaches: nat -> Udisks) returns (o: Outcome)
      modifies this
      ensures (State(), o) == UnmountAllSpec(old(State()), old(usbDevices), unmounts, detaches)
    {
      var devs := usbDevices;
      var i := 0;
      while i < |devs|
        invariant 0 <= i <= |devs|
        invariant UnmountAllSpec(old(State()), devs[..i], unmounts, detaches) == (State(), Pass)
      {
        UnmountAllNext(old(State()), devs, unmounts, detaches, i);
        o := UnmountOne(devs[i], unmounts(i), detaches(i));
        if o.Raise? {
          UnmountAllSticks(old(State()), devs, unmounts, detaches, i + 1);
          return;
        }
        i := i + 1;
      }
      assert devs[..i] == devs;
      return Pass;
    }

    /** `copy`. */
    method Copy(env: CopyEnv) returns (o: Outcome)
      modifies this
      ensures (State(), o) == CopySpec(old(State()), env)
      ensures o.Pass? ==> progress == "DONE"
    {
      o := UpdateDeviceAttributes(env.scanBefore);
      if o.Raise? {
        return;
      }
      o := MountAll(env.mounts);
      if o.Raise? {
        return;
      }
      o := CopyFiles(env.rsync);
      if o.Raise? {
        return;
      }
      o := UpdateDeviceAttributes(env.scanAfter);
      if o.Raise? {
        return;
      }
      o := UnmountAll(env.unmounts, env.detaches);
      if o.Raise? {
        return;
      }
      progress := "DONE";
    }
  }
}
