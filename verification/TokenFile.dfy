/** The persisted refresh tokens: a text file of `key: token` lines, its parser and its
    rewriter. Text mode is part of the model: reading turns every "\r\n" and "\r" into "\n". */
module TokenFile {
  import opened Sequences

  // ---------------------------------------------------------------- str.strip

  /** The characters `str.strip` removes. */
  predicate IsSpace(c: char) {
    || '\U{9}' <= c <= '\U{D}' || '\U{1C}' <= c <= '\U{20}' || c == '\U{85}' || c == '\U{A0}'
    || c == '\U{1680}' || '\U{2000}' <= c <= '\U{200A}' || c == '\U{2028}' || c == '\U{2029}'
    || c == '\U{202F}' || c == '\U{205F}' || c == '\U{3000}'
  }

  function TrimLeft(s: string): (r: string)
    ensures r != "" ==> !IsSpace(r[0])
    ensures forall c :: c in r ==> c in s
  {
    if s == "" || !IsSpace(s[0]) then s else TrimLeft(s[1..])
  }

  function TrimRight(s: string): (r: string)
    ensures r != "" ==> !IsSpace(r[|r| - 1])
    ensures r <= s
  {
    if s == "" || !IsSpace(s[|s| - 1]) then s else TrimRight(s[..|s| - 1])
  }

  function Strip(s: string): (r: string)
    ensures Trimmed(r)
    ensures forall c :: c in r ==> c in s
  {
    TrimRight(TrimLeft(s))
  }

  predicate Trimmed(s: string) {
    s == "" || (!IsSpace(s[0]) && !IsSpace(s[|s| - 1]))
  }

  lemma {:induction false} LeftDropped(s: string)
    ensures |TrimLeft(s)| <= |s| && s[|s| - |TrimLeft(s)|..] == TrimLeft(s)
    ensures forall i :: 0 <= i < |s| - |TrimLeft(s)| ==> IsSpace(s[i])
  {
    hide IsSpace;
    if s != "" && IsSpace(s[0]) {
      var rest := s[1..];
      LeftDropped(rest);
      forall i | 0 <= i < |s| - |TrimLeft(s)| ensures IsSpace(s[i]) {
        assert i > 0 ==> s[i] == rest[i - 1];
      }
    }
  }

  lemma {:induction false} RightDropped(s: string)
    ensures forall i :: |TrimRight(s)| <= i < |s| ==> IsSpace(s[i])
  {
    hide IsSpace;
    if s != "" && IsSpace(s[|s| - 1]) {
      var rest := s[..|s| - 1];
      RightDropped(rest);
      forall i | |TrimRight(s)| <= i < |s| ensures IsSpace(s[i]) {
        assert i < |rest| ==> s[i] == rest[i];
      }
    }
  }

  /** Stripping takes spaces off both ends and nothing else. */
  lemma {:induction false} StripDropsSpaces(s: string) returns (a: nat)
    ensures a + |Strip(s)| <= |s| && Strip(s) == s[a..a + |Strip(s)|] && Trimmed(Strip(s))
    ensures forall i :: 0 <= i < a || a + |Strip(s)| <= i < |s| ==> IsSpace(s[i])
  {
    var t, w := TrimLeft(s), Strip(s);
    assert w == TrimRight(t) && w <= t;
    LeftDropped(s);
    RightDropped(t);
    hide IsSpace, TrimLeft, TrimRight, Strip, Trimmed;
    a := |s| - |t|;
    assert w == t[..|w|] == s[a..][..|w|];
    forall i | a + |w| <= i < |s| ensures IsSpace(s[i]) {
      assert s[i] == t[i - a];
    }
  }

  predicate OneLine(s: string) {
    '\n' !in s && '\r' !in s
  }

  lemma {:induction false} TrimRightSnoc(s: string, c: char)
    requires IsSpace(c)
    ensures TrimRight(s + [c]) == TrimRight(s)
  {
    assert (s + [c])[..|s|] == s;
  }

  lemma {:induction false} TrimLeftSnoc(s: string, c: char)
    requires IsSpace(c)
    ensures TrimLeft(s + [c]) == if TrimLeft(s) == "" then "" else TrimLeft(s) + [c]
  {
    if s == "" {
      assert [] + [c] == [c] && [c][1..] == [];
    } else if IsSpace(s[0]) {
      assert (s + [c])[1..] == s[1..] + [c];
      TrimLeftSnoc(s[1..], c);
    }
  }

  lemma {:induction false} StripSnoc(s: string, c: char)
    requires IsSpace(c)
    ensures Strip(s + [c]) == Strip(s)
  {
    TrimLeftSnoc(s, c);
    TrimRightSnoc(TrimLeft(s), c);
  }

  lemma {:induction false} TrimRightBlank(s: string)
    ensures TrimRight(s) == "" <==> Strip(s) == ""
    ensures Strip(TrimRight(s)) == Strip(s)
    decreases |s|
  {
    if s != "" && IsSpace(s[|s| - 1]) {
      var t := s[..|s| - 1];
      assert s == t + [s[|s| - 1]];
      TrimRightBlank(t);
      StripSnoc(t, s[|s| - 1]);
    } else if s != "" {
      LastKept(s);
    }
  }

  lemma {:induction false} LastKept(s: string)
    requires s != "" && !IsSpace(s[|s| - 1])
    ensures TrimLeft(s) != "" && TrimLeft(s)[|TrimLeft(s)| - 1] == s[|s| - 1]
  {
    if IsSpace(s[0]) {
      LastKept(s[1..]);
    }
  }

  /** Trimming on the right stops at the last character that is not a space. */
  lemma {:induction false} TrimRightConcat(a: string, b: string)
    requires a != "" && !IsSpace(a[|a| - 1])
    ensures TrimRight(a + b) == a + TrimRight(b)
    decreases |b|
  {
    if b == "" {
      assert a + b == a;
    } else if IsSpace(b[|b| - 1]) {
      assert (a + b)[..|a + b| - 1] == a + b[..|b| - 1];
      TrimRightConcat(a, b[..|b| - 1]);
    }
  }

  // ---------------------------------------------------------------- one line

  /** The position of the first ": ", as `partition(': ')` finds it. */
  function FindSep(s: string): (r: Option<nat>)
    ensures r.Some? ==> r.value + 1 < |s| && s[r.value] == ':' && s[r.value + 1] == ' '
    ensures forall i: nat :: i + 1 < |s| && s[i] == ':' && s[i + 1] == ' ' ==> r.Some? && r.value <= i
  {
    if |s| < 2 then None
    else if s[0] == ':' && s[1] == ' ' then Some(0)
    else match FindSep(s[1..])
      case None => None
      case Some(i) => Some(i + 1)
  }

  /** A line that records something: its key and its value, both stripped. */
  function Entry(line: string): (r: Option<(string, string)>)
    ensures r.Some? ==> Trimmed(r.value.1) && forall c :: c in r.value.1 ==> c in Strip(line)
  {
    var s := Strip(line);
    match FindSep(s)
    case None => None
    case Some(i) => Some((Strip(s[..i]), Strip(s[i + 2..])))
  }

  predicate HasKey(line: string, key: string) {
    Entry(line).Some? && Entry(line).value.0 == key
  }

  function NewLine(key: string, token: string): string {
    key + ": " + token + "\n"
  }

  /** A key that a line can record. The default `_get_persist_key`, a class name, a colon and an
      object's identity, makes only such keys; one made from a configured name need not be. */
  predicate GoodKey(key: string) {
    Trimmed(key) && OneLine(key) && FindSep(key).None?
  }

  lemma {:induction false} KeyIsFirst(key: string, b: string)
    requires Trimmed(key)
    ensures TrimLeft(key + ":" + b) == key + ":" + b
  {
    assert (key + ":" + b)[0] == if key == "" then ':' else key[0];
  }

  lemma {:induction false} NewLineStripped(key: string, token: string)
    requires GoodKey(key)
    ensures Strip(NewLine(key, token)) == key + ":" + (if Strip(token) == "" then "" else " " + TrimRight(token))
  {
    var a := key + ":";
    var b := " " + token + "\n";
    assert NewLine(key, token) == a + b;
    KeyIsFirst(key, b);
    assert Strip(a + b) == TrimRight(a + b);
    hide Strip, TrimLeft, TrimRight, GoodKey;
    TrimRightConcat(a, b);
    TrimRightSnoc(" " + token, '\n');
    TrimRightBlank(token);
    TrimRightAfterSpace(token);
  }

  lemma {:induction false} TrimRightAfterSpace(token: string)
    ensures TrimRight(" " + token) == if TrimRight(token) == "" then "" else " " + TrimRight(token)
    decreases |token|
  {
    if token == "" {
      assert " " + token == " " && " "[..0] == "";
    } else if IsSpace(token[|token| - 1]) {
      assert (" " + token)[..|token|] == " " + token[..|token| - 1];
      TrimRightAfterSpace(token[..|token| - 1]);
    }
  }

  lemma {:induction false} Pieces(key: string, value: string)
    ensures var s := key + ":" + (" " + value);
      |key| + 2 <= |s| && s[..|key|] == key && s[|key| + 2..] == value
  {
  }

  /** A written line reads back as its key and the stripped token; a blank token is lost. */
  lemma {:induction false} NewLineEntry(key: string, token: string)
    requires GoodKey(key)
    ensures Entry(NewLine(key, token)) == if Strip(token) == "" then None else Some((key, Strip(token)))
  {
    var rest := if Strip(token) == "" then "" else " " + TrimRight(token);
    NewLineStripped(key, token);
    TrimRightBlank(token);
    SepAfterKey(key, rest);
    Pieces(key, TrimRight(token));
    TrimmedStrip(key);
    assert FindSep(key + ":" + rest) == if rest == "" then None else Some(|key|);
  }

  lemma {:induction false} TrimmedStrip(s: string)
    requires Trimmed(s)
    ensures Strip(s) == s
  {
  }

  lemma {:induction false} SepAfterKey(key: string, rest: string)
    requires FindSep(key).None? && (rest == "" || rest[0] == ' ')
    ensures FindSep(key + ":" + rest) == if rest == "" then None else Some(|key|)
  {
    var s := key + ":" + rest;
    forall i | 0 <= i < |key| && i + 1 < |s| ensures !(s[i] == ':' && s[i + 1] == ' ') {
      assert i + 1 < |key| ==> s[i] == key[i] && s[i + 1] == key[i + 1];
    }
    if rest != "" {
      assert s[|key|] == ':' && s[|key| + 1] == ' ';
    }
  }

  /** A trailing newline does not change what a line records. */
  lemma {:induction false} EntryTerminated(line: string)
    ensures Entry(Terminated(line)) == Entry(line)
  {
    StripSnoc(line, '\n');
  }

  // ---------------------------------------------------------------- lines of a text file

  /** Universal newlines. */
  function Translate(s: string): (r: string)
    ensures '\r' !in r
  {
    if s == "" then ""
    else if s[0] == '\r' then "\n" + Translate(if |s| > 1 && s[1] == '\n' then s[2..] else s[1..])
    else [s[0]] + Translate(s[1..])
  }

  function NewlineAt(s: string): (i: nat)
    ensures i <= |s| && '\n' !in s[..i] && (i < |s| ==> s[i] == '\n')
  {
    if s == "" || s[0] == '\n' then 0
    else
      var i := 1 + NewlineAt(s[1..]);
      assert s[..i] == [s[0]] + s[1..][..i - 1];
      i
  }

  /** What iterating over the open file yields. */
  function Lines(s: string): seq<string>
    decreases |s|
  {
    if s == "" then []
    else
      var i := NewlineAt(s);
      if i == |s| then [s] else [s[..i + 1]] + Lines(s[i + 1..])
  }

  function Concat(lines: seq<string>): string {
    if lines == [] then "" else lines[0] + Concat(lines[1..])
  }

  function Terminated(line: string): string {
    if line != "" && line[|line| - 1] == '\n' then line else line + "\n"
  }

  /** A line with its newline and nothing that breaks it. */
  predicate Proper(line: string) {
    line != "" && line[|line| - 1] == '\n' && OneLine(line[..|line| - 1])
  }

  lemma {:induction false} TranslateConcat(a: string, b: string)
    requires '\r' !in a
    ensures Translate(a + b) == a + Translate(b)
  {
    if a == "" {
      assert a + b == b;
    } else {
      assert (a + b)[0] == a[0] && (a + b)[1..] == a[1..] + b;
      TranslateConcat(a[1..], b);
    }
  }

  /** Text mode reads a line the same whether it ends in "\n", "\r\n" or "\r", and nothing else
      differently. */
  lemma {:induction false} UniversalNewlines(p: string, rest: string)
    requires OneLine(p)
    ensures Translate(p) == p
    ensures Translate(p + "\n" + rest) == p + "\n" + Translate(rest)
    ensures Translate(p + "\r\n" + rest) == p + "\n" + Translate(rest)
    ensures rest == "" || rest[0] != '\n' ==> Translate(p + "\r" + rest) == p + "\n" + Translate(rest)
  {
    TranslateConcat(p, "");
    assert p + "" == p;
    TranslateConcat(p, "\n" + rest);
    TranslateConcat(p, "\r\n" + rest);
    TranslateConcat(p, "\r" + rest);
    assert p + "\n" + rest == p + ("\n" + rest) && p + "\r\n" + rest == p + ("\r\n" + rest);
    assert p + "\r" + rest == p + ("\r" + rest);
    assert ("\n" + rest)[1..] == rest && ("\r\n" + rest)[2..] == rest && ("\r" + rest)[1..] == rest;
  }

  /** The lines of a text are the text. */
  lemma {:induction false} LinesWhole(s: string)
    ensures Concat(Lines(s)) == s
    decreases |s|
  {
    if s != "" {
      var i := NewlineAt(s);
      if i < |s| {
        LinesWhole(s[i + 1..]);
        assert s == s[..i + 1] + s[i + 1..];
        assert ([s[..i + 1]] + Lines(s[i + 1..]))[1..] == Lines(s[i + 1..]);
      } else {
        assert [s][1..] == [];
      }
    }
  }

  lemma {:induction false} FirstLine(line: string, rest: string)
    requires Proper(line)
    ensures '\r' !in line && NewlineAt(line + rest) == |line| - 1
  {
    var body, s := line[..|line| - 1], line + rest;
    assert line == body + "\n";
    var i := NewlineAt(s);
    assert s[|body|] == '\n';
    assert s[..|body|] == body;
  }

  /** Lines written out read back as the same lines. */
  lemma {:induction false} ReadBack(lines: seq<string>)
    requires forall l :: l in lines ==> Proper(l)
    ensures Translate(Concat(lines)) == Concat(lines) && Lines(Concat(lines)) == lines
  {
    if lines != [] {
      var line, rest := lines[0], Concat(lines[1..]);
      assert line in lines;
      ReadBack(lines[1..]);
      FirstLine(line, rest);
      TranslateConcat(line, rest);
      assert (line + rest)[..|line|] == line && (line + rest)[|line|..] == rest;
    }
  }

  lemma {:induction false} LinesAreProper(s: string)
    requires '\r' !in s
    ensures forall l :: l in Lines(s) ==> Proper(Terminated(l))
    decreases |s|
  {
    if s != "" {
      var i := NewlineAt(s);
      if i == |s| {
        assert s[..i] == s;
        assert Terminated(s)[..|s|] == s;
      } else {
        LinesAreProper(s[i + 1..]);
        assert s[..i + 1][..i] == s[..i];
      }
    }
  }

  // ---------------------------------------------------------------- load and save

  function LoadLines(lines: seq<string>, key: string): string {
    if lines == [] then ""
    else if HasKey(lines[0], key) then Entry(lines[0]).value.1
    else LoadLines(lines[1..], key)
  }

  /** What becomes of one line of the file: another key's line stays, an entry of the key is
      replaced, or dropped when the token is empty. */
  function RewriteLine(line: string, key: string, token: string): seq<string> {
    if !HasKey(line, key) then [Terminated(line)]
    else if token != "" then [NewLine(key, token)]
    else []
  }

  function Rewritten(lines: seq<string>, key: string, token: string): seq<string> {
    if lines == [] then [] else RewriteLine(lines[0], key, token) + Rewritten(lines[1..], key, token)
  }

  predicate Mentions(lines: seq<string>, key: string) {
    exists l :: l in lines && HasKey(l, key)
  }

  function SavedLines(lines: seq<string>, key: string, token: string): seq<string> {
    Rewritten(lines, key, token) + (if token != "" && !Mentions(lines, key) then [NewLine(key, token)] else [])
  }

  function FileLines(file: Option<string>): seq<string> {
    match file
    case None => []
    case Some(text) => Lines(Translate(text))
  }

  function Load(file: Option<string>, key: string): string {
    LoadLines(FileLines(file), key)
  }

  function Save(file: Option<string>, key: string, token: string): Option<string> {
    Some(Concat(SavedLines(FileLines(file), key, token)))
  }

  lemma {:induction false} RewrittenConcat(a: seq<string>, b: seq<string>, key: string, token: string)
    ensures Rewritten(a + b, key, token) == Rewritten(a, key, token) + Rewritten(b, key, token)
  {
    hide RewriteLine;
    if a == [] {
      assert a + b == b;
    } else {
      assert (a + b)[0] == a[0] && (a + b)[1..] == a[1..] + b;
      RewrittenConcat(a[1..], b, key, token);
    }
  }

  lemma {:induction false} RewrittenSnoc(lines: seq<string>, i: nat, key: string, token: string)
    requires i < |lines|
    ensures Rewritten(lines[..i + 1], key, token) == Rewritten(lines[..i], key, token) + RewriteLine(lines[i], key, token)
  {
    hide RewriteLine;
    assert lines[..i + 1] == lines[..i] + [lines[i]];
    RewrittenConcat(lines[..i], [lines[i]], key, token);
    assert [lines[i]][1..] == [];
  }

  lemma {:induction false} LoadConcat(a: seq<string>, b: seq<string>, key: string)
    ensures LoadLines(a + b, key) == if Mentions(a, key) then LoadLines(a, key) else LoadLines(b, key)
  {
    hide HasKey, Entry;
    if a == [] {
      assert a + b == b;
    } else {
      assert (a + b)[0] == a[0] && (a + b)[1..] == a[1..] + b;
      assert a == [a[0]] + a[1..];
      LoadConcat(a[1..], b, key);
    }
  }

  lemma {:induction false} MentionsConcat(a: seq<string>, b: seq<string>, key: string)
    ensures Mentions(a + b, key) <==> Mentions(a, key) || Mentions(b, key)
  {
    hide HasKey;
  }

  lemma {:induction false} LoadSkips(lines: seq<string>, i: nat, key: string)
    requires i <= |lines| && forall j :: 0 <= j < i ==> !HasKey(lines[j], key)
    ensures LoadLines(lines, key) == LoadLines(lines[i..], key)
    decreases i
  {
    if i > 0 {
      LoadSkips(lines[1..], i - 1, key);
      assert lines[1..][i - 1..] == lines[i..];
    }
  }

  /** The token file as one credential holder uses it. */
  class TokenStore {
    const key: string
    var file: Option<string>

    constructor (key: string, file: Option<string>)
      ensures this.key == key && this.file == file
    {
      this.key, this.file := key, file;
    }

    method LoadToken() returns (token: string)
      ensures token == Load(file, key)
    {
      hide Strip, FindSep, FileLines;
      var lines := FileLines(file);
      var i := 0;
      while i < |lines|
        invariant i <= |lines| && forall j :: 0 <= j < i ==> !HasKey(lines[j], key)
      {
        var entry := Entry(lines[i]);
        if entry.Some? && entry.value.0 == key {
          LoadSkips(lines, i, key);
          return entry.value.1;
        }
        i := i + 1;
      }
      LoadSkips(lines, i, key);
      return "";
    }

    method SaveToken(token: string)
      modifies this
      ensures file == Save(old(file), key, token)
    {
      hide Entry, HasKey, Terminated, NewLine, FileLines, Concat;
      var old_lines := FileLines(file);
      var lines: seq<string> := [];
      var replaced := false;
      var i := 0;
      while i < |old_lines|
        invariant i <= |old_lines|
        invariant lines == Rewritten(old_lines[..i], key, token)
        invariant replaced <==> token != "" && Mentions(old_lines[..i], key)
      {
        RewrittenSnoc(old_lines, i, key, token);
        assert old_lines[..i + 1] == old_lines[..i] + [old_lines[i]];
        MentionsConcat(old_lines[..i], [old_lines[i]], key);
        assert Mentions([old_lines[i]], key) <==> HasKey(old_lines[i], key) by {
          assert old_lines[i] in [old_lines[i]];
        }
        if HasKey(old_lines[i], key) {
          if token != "" {
            lines := lines + [NewLine(key, token)];
            replaced := true;
          }
        } else {
          lines := lines + [Terminated(old_lines[i])];
        }
        i := i + 1;
      }
      assert old_lines[..i] == old_lines;
      if !replaced && token != "" {
        lines := lines + [NewLine(key, token)];
      }
      assert lines == SavedLines(old_lines, key, token);
      file := Some(Concat(lines));
    }
  }

  // ---------------------------------------------------------------- reading back what was saved

  lemma {:induction false} NewLineProper(key: string, token: string)
    requires OneLine(key) && OneLine(token)
    ensures Proper(NewLine(key, token))
  {
    var body := key + ": " + token;
    assert NewLine(key, token)[..|body|] == body;
  }

  lemma {:induction false} RewrittenProper(lines: seq<string>, key: string, token: string)
    requires OneLine(key) && OneLine(token) && forall l :: l in lines ==> Proper(Terminated(l))
    ensures forall l :: l in Rewritten(lines, key, token) ==> Proper(l)
  {
    if lines != [] {
      assert lines[0] in lines;
      NewLineProper(key, token);
      RewrittenProper(lines[1..], key, token);
    }
  }

  function NotOf(key: string): string -> bool {
    (line: string) => !HasKey(line, key)
  }

  /** Whatever else the file holds stays, line by line and in order. */
  lemma {:induction false} OtherLinesStay(lines: seq<string>, key: string, token: string)
    requires GoodKey(key) && (token == "" || Strip(token) != "")
    ensures Filter(SavedLines(lines, key, token), NotOf(key)) == Map(Filter(lines, NotOf(key)), Terminated)
  {
    hide HasKey, Rewritten, GoodKey, Strip;
    RewrittenKeeps(lines, key, token);
    var added := if token != "" && !Mentions(lines, key) then [NewLine(key, token)] else [];
    FilterConcat(Rewritten(lines, key, token), added, NotOf(key));
    NewLineIsEntry(key, token);
    FilterNone(added, NotOf(key));
  }

  lemma {:induction false} NewLineIsEntry(key: string, token: string)
    requires GoodKey(key)
    ensures Strip(token) != "" ==> HasKey(NewLine(key, token), key)
  {
    NewLineEntry(key, token);
  }

  lemma {:induction false} RewrittenKeeps(lines: seq<string>, key: string, token: string)
    requires GoodKey(key) && (token == "" || Strip(token) != "")
    ensures Filter(Rewritten(lines, key, token), NotOf(key)) == Map(Filter(lines, NotOf(key)), Terminated)
  {
    hide HasKey, GoodKey, Strip, Terminated;
    if lines != [] {
      var line, rest := lines[0], lines[1..];
      RewrittenKeeps(rest, key, token);
      var own := RewriteLine(line, key, token);
      FilterConcat(own, Rewritten(rest, key, token), NotOf(key));
      TerminatedHasKey(line, key);
      NewLineIsEntry(key, token);
      assert own != [] ==> own[1..] == [];
    }
  }

  /** A one-line token leaves a file whose lines are the ones that were written. */
  lemma {:induction false} SavedFileLines(file: Option<string>, key: string, token: string)
    requires OneLine(key) && OneLine(token)
    ensures FileLines(Save(file, key, token)) == SavedLines(FileLines(file), key, token)
  {
    var lines := FileLines(file);
    if file.Some? {
      LinesAreProper(Translate(file.value));
    }
    RewrittenProper(lines, key, token);
    NewLineProper(key, token);
    ReadBack(SavedLines(lines, key, token));
  }

  lemma {:induction false} TerminatedHasKey(line: string, key: string)
    ensures HasKey(Terminated(line), key) <==> HasKey(line, key)
  {
    EntryTerminated(line);
  }

  /** The lines written for one line record what it recorded, except under the key itself. */
  lemma {:induction false} RewriteLineMentions(line: string, key: string, token: string, other: string)
    requires GoodKey(key)
    ensures Mentions(RewriteLine(line, key, token), other) <==>
      HasKey(line, other) && (other == key ==> token != "" && Strip(token) != "")
    ensures Mentions(RewriteLine(line, key, token), other) ==>
      LoadLines(RewriteLine(line, key, token), other) == if other == key then Strip(token) else Entry(line).value.1
  {
    hide Strip, Entry, Terminated, NewLine, GoodKey;
    NewLineEntry(key, token);
    EntryTerminated(line);
    var r := RewriteLine(line, key, token);
    if r != [] {
      assert r == [r[0]] && r[1..] == [];
      assert Mentions(r, other) <==> HasKey(r[0], other) by { assert r[0] in r; }
      assert LoadLines(r, other) == if HasKey(r[0], other) then Entry(r[0]).value.1 else "";
    }
  }

  /** What the rewritten lines hold for any key. */
  lemma {:induction false} RewrittenLoads(lines: seq<string>, key: string, token: string, other: string)
    requires GoodKey(key)
    ensures Mentions(Rewritten(lines, key, token), other) <==>
      Mentions(lines, other) && (other == key ==> token != "" && Strip(token) != "")
    ensures Mentions(Rewritten(lines, key, token), other) ==>
      LoadLines(Rewritten(lines, key, token), other) == if other == key then Strip(token) else LoadLines(lines, other)
  {
    hide HasKey, Entry, RewriteLine, Strip, GoodKey;
    if lines != [] {
      var line, rest := lines[0], lines[1..];
      assert lines == [line] + rest;
      MentionsConcat([line], rest, other);
      assert Mentions([line], other) <==> HasKey(line, other) by { assert line in [line]; }
      RewriteLineMentions(line, key, token, other);
      RewrittenLoads(rest, key, token, other);
      MentionsConcat(RewriteLine(line, key, token), Rewritten(rest, key, token), other);
      LoadConcat(RewriteLine(line, key, token), Rewritten(rest, key, token), other);
    }
  }

  lemma {:induction false} LoadNone(lines: seq<string>, key: string)
    requires !Mentions(lines, key)
    ensures LoadLines(lines, key) == ""
  {
    hide HasKey, Entry;
    if lines != [] {
      assert lines[0] in lines;
      LoadNone(lines[1..], key);
    }
  }

  lemma {:induction false} LoadSavedLines(lines: seq<string>, key: string, token: string, other: string)
    requires GoodKey(key)
    ensures LoadLines(SavedLines(lines, key, token), other) == if other == key then Strip(token) else LoadLines(lines, other)
  {
    var added := if token != "" && !Mentions(lines, key) then [NewLine(key, token)] else [];
    NewLineEntry(key, token);
    assert added != [] ==> added[1..] == [];
    assert LoadLines(added, other) == if added != [] && other == key then Strip(token) else "";
    hide HasKey, Entry, Rewritten, NewLine, GoodKey;
    RewrittenLoads(lines, key, token, other);
    LoadConcat(Rewritten(lines, key, token), added, other);
    if !Mentions(lines, other) {
      LoadNone(lines, other);
    }
  }

  lemma {:induction false} EntryIsClean(line: string)
    requires Proper(Terminated(line)) && Entry(line).Some?
    ensures Trimmed(Entry(line).value.1) && OneLine(Entry(line).value.1)
  {
    EntryTerminated(line);
    hide Entry, Strip, Trimmed, Terminated;
    var full := Terminated(line);
    var front, value := full[..|full| - 1], Entry(full).value.1;
    assert full == front + "\n";
    StripSnoc(front, '\n');
    assert forall c :: c in value ==> c in Strip(front) && c in front;
  }

  /** Whatever the file holds, a loaded token is trimmed and has no line break. */
  lemma {:induction false} LoadedIsClean(lines: seq<string>, key: string)
    requires forall l :: l in lines ==> Proper(Terminated(l))
    ensures Trimmed(LoadLines(lines, key)) && OneLine(LoadLines(lines, key))
  {
    if lines != [] {
      assert lines[0] in lines;
      if HasKey(lines[0], key) {
        hide Strip, Entry, Terminated;
        EntryIsClean(lines[0]);
      } else {
        hide Strip, Entry, Terminated, Proper;
        LoadedIsClean(lines[1..], key);
      }
    }
  }

  // ---------------------------------------------------------------- keys no line can record

  lemma {:induction false} NoSepWithin(s: string, a: nat, n: nat)
    requires FindSep(s).None? && a + n <= |s|
    ensures FindSep(s[a..a + n]).None?
  {
    var w := s[a..a + n];
    assert forall i :: 0 <= i < n ==> w[i] == s[a + i];
  }

  lemma {:induction false} NoSepBefore(s: string)
    requires FindSep(s).Some?
    ensures FindSep(s[..FindSep(s).value]).None?
  {
    var k := s[..FindSep(s).value];
    assert forall i :: 0 <= i < |k| ==> k[i] == s[i];
  }

  lemma {:induction false} KeyHasNoSep(s: string)
    requires FindSep(s).Some?
    ensures FindSep(Strip(s[..FindSep(s).value])).None?
  {
    var k := s[..FindSep(s).value];
    NoSepBefore(s);
    hide FindSep, Strip;
    var a := StripDropsSpaces(k);
    NoSepWithin(k, a, |Strip(k)|);
  }

  lemma {:induction false} StrippedIsOneLine(line: string)
    requires Proper(Terminated(line))
    ensures OneLine(Strip(line))
  {
    hide Strip;
    var full := Terminated(line);
    var front := full[..|full| - 1];
    assert full == front + "\n";
    StripSnoc(front, '\n');
    StripSnoc(line, '\n');
    assert forall c :: c in Strip(front) ==> c in front;
  }

  /** Whatever a line of a file records, it records under a good key. */
  lemma {:induction false} EntryKeyIsGood(line: string)
    requires Proper(Terminated(line)) && Entry(line).Some?
    ensures GoodKey(Entry(line).value.0)
  {
    hide Strip, FindSep, Terminated, Proper;
    var s := Strip(line);
    var k := s[..FindSep(s).value];
    KeyHasNoSep(s);
    StrippedIsOneLine(line);
    assert forall c :: c in Strip(k) ==> c in k && c in s;
  }

  lemma {:induction false} NeverRecorded(lines: seq<string>, key: string)
    requires !GoodKey(key) && forall l :: l in lines ==> Proper(Terminated(l))
    ensures !Mentions(lines, key)
  {
    hide Entry, GoodKey, Proper;
    forall l | l in lines ensures !HasKey(l, key) {
      if Entry(l).Some? {
        EntryKeyIsGood(l);
      }
    }
  }

  lemma {:induction false} FileLinesProper(file: Option<string>)
    ensures forall l :: l in FileLines(file) ==> Proper(Terminated(l))
  {
    hide Lines, Translate, Proper;
    if file.Some? {
      LinesAreProper(Translate(file.value));
    }
  }

  // ---------------------------------------------------------------- tokens with line breaks

  /** The lines a piece of the file is read back as. */
  function Broken(piece: string): seq<string> {
    Lines(Translate(piece))
  }

  function AllBroken(pieces: seq<string>): seq<string> {
    if pieces == [] then [] else Broken(pieces[0]) + AllBroken(pieces[1..])
  }

  predicate EndsLine(s: string) {
    s != "" && s[|s| - 1] == '\n'
  }

  lemma {:induction false} TranslateJoin(a: string, b: string)
    requires a == "" || a[|a| - 1] != '\r'
    ensures Translate(a + b) == Translate(a) + Translate(b)
    decreases |a|
  {
    if a == "" {
      assert a + b == b;
    } else {
      var pair := a[0] == '\r' && a[1] == '\n';
      var n := if pair then 2 else 1;
      assert (a + b)[0] == a[0] && (a[0] == '\r' ==> (a + b)[1] == a[1]);
      assert (a + b)[n..] == a[n..] + b;
      TranslateJoin(a[n..], b);
    }
  }

  lemma {:induction false} TranslateEnds(a: string)
    requires EndsLine(a)
    ensures EndsLine(Translate(a))
  {
    var front := a[..|a| - 1];
    if front == "" || front[|front| - 1] != '\r' {
      assert a == front + "\n";
      TranslateJoin(front, "\n");
      assert Translate("\n") == "\n" by {
        assert "\n"[1..] == "";
      }
    } else {
      var before := front[..|front| - 1];
      TranslateLast(before);
      assert a == before + "\r\n";
    }
  }

  lemma {:induction false} TranslateLast(before: string)
    ensures EndsLine(Translate(before + "\r\n"))
    decreases |before|
  {
    var s := before + "\r\n";
    if before == "" {
      assert s == "\r\n" && s[2..] == "";
    } else if before[0] == '\r' && s[1] == '\n' {
      assert |before| > 1;
      assert s[2..] == before[2..] + "\r\n";
      TranslateLast(before[2..]);
    } else {
      assert s[1..] == before[1..] + "\r\n";
      TranslateLast(before[1..]);
    }
  }

  lemma {:induction false} NewlineAtJoin(a: string, b: string)
    requires EndsLine(a)
    ensures NewlineAt(a + b) == NewlineAt(a) < |a|
  {
    if a[0] != '\n' {
      assert (a + b)[1..] == a[1..] + b;
      NewlineAtJoin(a[1..], b);
    }
  }

  /** One line and whatever follows it. */
  lemma {:induction false} LinesFirst(head: string, rest: string)
    requires EndsLine(head) && NewlineAt(head) == |head| - 1
    ensures Lines(head + rest) == [head] + Lines(rest)
  {
    NewlineAtJoin(head, rest);
    hide NewlineAt;
    assert (head + rest)[..|head|] == head && (head + rest)[|head|..] == rest;
  }

  lemma {:induction false} FirstLineOf(a: string) returns (head: string, rest: string)
    requires EndsLine(a)
    ensures a == head + rest && EndsLine(head) && NewlineAt(head) == |head| - 1 && (rest == "" || EndsLine(rest))
  {
    NewlineAtJoin(a, "");
    assert a + "" == a;
    var i := NewlineAt(a);
    head, rest := a[..i + 1], a[i + 1..];
    assert head[i] == '\n' && head[..i] == a[..i];
    NewlineAtJoin(head, "");
    assert head + "" == head;
    assert forall j :: 0 <= j < i ==> head[j] == a[j] && a[j] in a[..i];
  }

  lemma {:induction false} LinesJoin(a: string, b: string)
    requires a == "" || EndsLine(a)
    ensures Lines(a + b) == Lines(a) + Lines(b)
    decreases |a|
  {
    hide Lines, NewlineAt, EndsLine;
    if a == "" {
      assert a + b == b;
      NoLines();
    } else {
      var head, rest := FirstLineOf(a);
      LinesFirst(head, rest);
      LinesFirst(head, rest + b);
      assert a + b == head + (rest + b);
      LinesJoin(rest, b);
      assert [head] + (Lines(rest) + Lines(b)) == ([head] + Lines(rest)) + Lines(b);
    }
  }

  lemma {:induction false} NoLines()
    ensures Lines("") == []
  {
  }

  /** Pieces that end in a newline are broken one by one. */
  lemma {:induction false} ConcatBroken(pieces: seq<string>)
    requires forall p :: p in pieces ==> EndsLine(p)
    ensures Broken(Concat(pieces)) == AllBroken(pieces)
  {
    hide Translate, Lines;
    if pieces == [] {
      EmptyBroken();
    } else {
      var p, rest := pieces[0], Concat(pieces[1..]);
      assert p in pieces;
      ConcatBroken(pieces[1..]);
      TranslateJoin(p, rest);
      TranslateEnds(p);
      LinesJoin(Translate(p), Translate(rest));
    }
  }

  lemma {:induction false} EmptyBroken()
    ensures Broken("") == []
  {
  }

  lemma {:induction false} ProperBroken(line: string)
    requires Proper(line)
    ensures Broken(line) == [line]
  {
    ReadBack([line]);
    assert Concat([line]) == line + Concat([line][1..]) == line;
  }

  /** The first line of a written token is an entry of the key or none. */
  lemma {:induction false} FirstBroken(key: string, token: string)
    requires GoodKey(key)
    ensures var b := Broken(NewLine(key, token)); b != [] && (Entry(b[0]).Some? ==> Entry(b[0]).value.0 == key)
  {
    hide Entry, Translate, Lines, NewlineAt;
    var head := key + ": ";
    var rest := Translate(token + "\n");
    TranslateConcat(head, token + "\n");
    TranslateEnds(token + "\n");
    assert NewLine(key, token) == head + (token + "\n");
    var t := head + rest;
    var i := NewlineAt(t);
    FirstOf(t);
    HeadBeforeNewline(head, rest);
    var a := t[|head|..i];
    assert t[..i + 1] == NewLine(key, a);
    assert OneLine(a) by {
      assert forall c :: c in a ==> c in t[..i] && c in rest;
    }
    NewLineEntry(key, a);
  }

  lemma {:induction false} FirstOf(t: string)
    requires EndsLine(t)
    ensures NewlineAt(t) < |t| && Lines(t) != [] && Lines(t)[0] == t[..NewlineAt(t) + 1]
  {
    NewlineAtJoin(t, "");
    assert t + "" == t;
  }

  lemma {:induction false} HeadBeforeNewline(head: string, rest: string)
    requires '\n' !in head
    ensures |head| <= NewlineAt(head + rest)
  {
    var t := head + rest;
    assert forall j :: 0 <= j < |head| ==> t[j] == head[j] && head[j] in head;
  }

  /** No line that is written has an entry under another key. */
  predicate LeavesOthers(key: string, token: string) {
    token == ""
    || forall l :: l in Broken(NewLine(key, token)) && Entry(l).Some? ==> Entry(l).value.0 == key
  }

  /** For a good key the first line can be left out of account: it has an entry of the key or none. */
  lemma {:induction false} LaterLinesDecide(key: string, token: string)
    requires GoodKey(key)
    ensures LeavesOthers(key, token) <==>
      var b := Broken(NewLine(key, token));
      forall i :: 0 < i < |b| && Entry(b[i]).Some? ==> Entry(b[i]).value.0 == key
  {
    hide Entry, Broken, GoodKey;
    FirstBroken(key, token);
    var b := Broken(NewLine(key, token));
    if token == "" {
      EmptyOneLine(key);
    }
    forall i | 0 < i < |b| ensures b[i] in b {
    }
  }

  lemma {:induction false} EmptyOneLine(key: string)
    requires GoodKey(key)
    ensures |Broken(NewLine(key, ""))| == 1
  {
    NewLineProper(key, "");
    ProperBroken(NewLine(key, ""));
  }

  lemma {:induction false} LeavesOthersMeans(key: string, token: string, other: string)
    requires LeavesOthers(key, token) && other != key && token != ""
    ensures !Mentions(Broken(NewLine(key, token)), other)
  {
    hide Entry, Broken;
  }

  lemma {:induction false} PiecesEndLines(lines: seq<string>, key: string, token: string)
    ensures forall p :: p in SavedLines(lines, key, token) ==> EndsLine(p)
  {
    NewLineEnds(key, token);
    RewrittenEnds(lines, key, token);
  }

  lemma {:induction false} NewLineEnds(key: string, token: string)
    ensures EndsLine(NewLine(key, token))
  {
  }

  lemma {:induction false} RewrittenEnds(lines: seq<string>, key: string, token: string)
    ensures forall p :: p in Rewritten(lines, key, token) ==> EndsLine(p)
  {
    NewLineEnds(key, token);
    hide NewLine, HasKey;
    if lines != [] {
      RewrittenEnds(lines[1..], key, token);
    }
  }

  lemma {:induction false} RewrittenLoadsOther(lines: seq<string>, key: string, token: string, other: string)
    requires other != key && (token != "" ==> !Mentions(Broken(NewLine(key, token)), other))
    requires forall l :: l in lines ==> Proper(Terminated(l))
    ensures Mentions(AllBroken(Rewritten(lines, key, token)), other) <==> Mentions(lines, other)
    ensures LoadLines(AllBroken(Rewritten(lines, key, token)), other) == LoadLines(lines, other)
  {
    hide HasKey, Entry, Broken, NewLine, Terminated, Proper;
    if lines != [] {
      var line, rest := lines[0], lines[1..];
      assert line in lines;
      RewrittenLoadsOther(rest, key, token, other);
      var left := AllBroken(Rewritten(rest, key, token));
      assert lines == [line] + rest;
      MentionsConcat([line], rest, other);
      LoadConcat([line], rest, other);
      if !HasKey(line, key) {
        ProperBroken(Terminated(line));
        TerminatedSame(line, other);
        AllBrokenConcat([Terminated(line)], Rewritten(rest, key, token));
        OneBroken(Terminated(line));
        MentionsConcat([Terminated(line)], left, other);
        LoadConcat([Terminated(line)], left, other);
      } else {
        OtherHasNot(line, key, other);
        if token != "" {
          AllBrokenConcat([NewLine(key, token)], Rewritten(rest, key, token));
          OneBroken(NewLine(key, token));
          MentionsConcat(Broken(NewLine(key, token)), left, other);
          LoadConcat(Broken(NewLine(key, token)), left, other);
        } else {
          assert [] + Rewritten(rest, key, token) == Rewritten(rest, key, token);
        }
      }
    }
  }

  lemma {:induction false} OneBroken(piece: string)
    ensures AllBroken([piece]) == Broken(piece)
  {
    assert [piece][1..] == [];
    assert AllBroken([]) == [];
  }

  lemma {:induction false} AllBrokenConcat(a: seq<string>, b: seq<string>)
    ensures AllBroken(a + b) == AllBroken(a) + AllBroken(b)
  {
    hide Broken;
    if a == [] {
      assert a + b == b;
    } else {
      assert (a + b)[0] == a[0] && (a + b)[1..] == a[1..] + b;
      AllBrokenConcat(a[1..], b);
    }
  }

  /** One line and the same line with its newline record the same. */
  lemma {:induction false} TerminatedSame(line: string, key: string)
    ensures Mentions([line], key) <==> Mentions([Terminated(line)], key)
    ensures LoadLines([line], key) == LoadLines([Terminated(line)], key)
  {
    hide Strip, FindSep, Terminated, Entry;
    EntryTerminated(line);
    assert line in [line] && Terminated(line) in [Terminated(line)];
    assert [line][1..] == [] && [Terminated(line)][1..] == [];
  }

  lemma {:induction false} OtherHasNot(line: string, key: string, other: string)
    requires HasKey(line, key) && other != key
    ensures !Mentions([line], other) && LoadLines([line], other) == ""
  {
    hide Entry;
    assert [line][1..] == [];
  }

  lemma {:induction false} OthersLoad(file: Option<string>, key: string, token: string, other: string)
    requires LeavesOthers(key, token) && other != key
    ensures Load(Save(file, key, token), other) == Load(file, other)
  {
    hide HasKey, Entry, Translate, Lines, NewLine, LeavesOthers;
    var lines := FileLines(file);
    FileLinesProper(file);
    if token != "" {
      LeavesOthersMeans(key, token, other);
    }
    RewrittenLoadsOther(lines, key, token, other);
    PiecesEndLines(lines, key, token);
    var rewritten, pieces := Rewritten(lines, key, token), SavedLines(lines, key, token);
    ConcatBroken(pieces);
    var added := if token != "" && !Mentions(lines, key) then [NewLine(key, token)] else [];
    assert pieces == rewritten + added;
    AllBrokenConcat(rewritten, added);
    OneBroken(NewLine(key, token));
    hide Broken;
    LoadConcat(AllBroken(rewritten), AllBroken(added), other);
    if !Mentions(lines, other) {
      LoadNone(AllBroken(added), other);
      LoadNone(AllBroken(rewritten), other);
    }
  }

  /** An entry is never empty. */
  lemma {:induction false} EntryHasValue(line: string)
    requires Entry(line).Some?
    ensures Entry(line).value.1 != ""
  {
    var s := Strip(line);
    var i := FindSep(s).value;
    assert i + 2 < |s| by {
      assert IsSpace(s[i + 1]) && !IsSpace(s[|s| - 1]);
    }
    LastKept(s[i + 2..]);
    var t := TrimLeft(s[i + 2..]);
    assert TrimRight(t) == t;
  }

  lemma {:induction false} LoadMentioned(lines: seq<string>, key: string)
    requires Mentions(lines, key)
    ensures LoadLines(lines, key) != ""
  {
    hide Entry;
    if HasKey(lines[0], key) {
      EntryHasValue(lines[0]);
    } else {
      LoadMentioned(lines[1..], key);
    }
  }

  /** A line with another entry is loaded under its key from a file that was not there before. */
  lemma {:induction false} IntruderLoads(key: string, token: string) returns (other: string)
    requires !LeavesOthers(key, token)
    ensures other != key && Load(None, other) == "" && Load(Save(None, key, token), other) != ""
  {
    hide Entry, Translate, Lines;
    var b := Broken(NewLine(key, token));
    var l :| l in b && Entry(l).Some? && Entry(l).value.0 != key;
    other := Entry(l).value.0;
    assert HasKey(l, other);
    LoadMentioned(b, other);
    FirstSave(key, token);
  }

  lemma {:induction false} FirstSave(key: string, token: string)
    requires token != ""
    ensures Save(None, key, token) == Some(NewLine(key, token))
  {
    hide NewLine, HasKey;
    assert !Mentions([], key) && SavedLines([], key, token) == [NewLine(key, token)];
    ConcatOne(NewLine(key, token));
  }

  // ---------------------------------------------------------------- main results

  /** A token survives the round trip through the file, whatever the file holds, if and only if it
      is empty, so that nothing is left of it, or is trimmed and fits on one line and its key can
      be recorded. */
  lemma {:induction false} RoundTrip(file: Option<string>, key: string, token: string)
    ensures Load(Save(file, key, token), key) == token <==>
      token == "" || (GoodKey(key) && Trimmed(token) && OneLine(token))
  {
    var saved := Save(file, key, token);
    if !GoodKey(key) {
      FileLinesProper(saved);
      NeverRecorded(FileLines(saved), key);
      LoadNone(FileLines(saved), key);
    } else if Trimmed(token) && OneLine(token) {
      SavedFileLines(file, key, token);
      TrimmedStrip(token);
      LoadSavedLines(FileLines(file), key, token, key);
    } else {
      FileLinesProper(saved);
      LoadedIsClean(FileLines(saved), key);
    }
  }

  /** A key with the separator in it makes an entry of what stands before the separator. */
  lemma {:induction false} BadKeyMakesEntry(head: string, tail: string, token: string)
    requires GoodKey(head) && OneLine(tail) && OneLine(token) && token != ""
    ensures Load(None, head) == ""
    ensures Load(Save(None, head + ": " + tail, token), head) == Strip(tail + ": " + token) != ""
  {
    hide GoodKey, Entry, Strip;
    var key, rest := head + ": " + tail, tail + ": " + token;
    FirstSave(key, token);
    FirstSave(head, rest);
    assert NewLine(key, token) == NewLine(head, rest);
    RecordedHead(head, tail, token);
  }

  lemma {:induction false} RecordedHead(head: string, tail: string, token: string)
    requires GoodKey(head) && OneLine(tail) && OneLine(token)
    ensures var rest := tail + ": " + token;
      Strip(rest) != "" && rest != "" && Load(Save(None, head, rest), head) == Strip(rest)
  {
    var rest := tail + ": " + token;
    assert Strip(rest) != "" by {
      HasNonSpace(rest, |tail|);
    }
    hide GoodKey, Entry, Strip;
    SavedFileLines(None, head, rest);
    LoadSavedLines([], head, rest, head);
  }

  lemma {:induction false} HasNonSpace(s: string, i: nat)
    requires i < |s| && !IsSpace(s[i])
    ensures Strip(s) != ""
  {
    LeftKeeps(s, i);
    RightKeeps(TrimLeft(s), s[i]);
  }

  lemma {:induction false} LeftKeeps(s: string, i: nat)
    requires i < |s| && !IsSpace(s[i])
    ensures s[i] in TrimLeft(s)
  {
    if IsSpace(s[0]) {
      LeftKeeps(s[1..], i - 1);
    }
  }

  lemma {:induction false} RightKeeps(s: string, c: char)
    requires c in s && !IsSpace(c)
    ensures c in TrimRight(s)
  {
    if IsSpace(s[|s| - 1]) {
      assert s == s[..|s| - 1] + [s[|s| - 1]];
      RightKeeps(s[..|s| - 1], c);
    }
  }

  /** Saving the empty token leaves no entry of the key. */
  lemma {:induction false} SaveEmptyErases(file: Option<string>, key: string)
    ensures !Mentions(FileLines(Save(file, key, "")), key)
  {
    if GoodKey(key) {
      SavedFileLines(file, key, "");
      RewrittenLoads(FileLines(file), key, "", key);
      assert SavedLines(FileLines(file), key, "") == Rewritten(FileLines(file), key, "");
    } else {
      FileLinesProper(Save(file, key, ""));
      NeverRecorded(FileLines(Save(file, key, "")), key);
    }
  }

  /** Saving a token under one key changes what no other key loads, whatever the file holds, if
      and only if no line that is written for it has an entry under another key. */
  lemma {:induction false} OtherKeysUntouched(key: string, token: string)
    ensures (forall file, other :: other != key ==> Load(Save(file, key, token), other) == Load(file, other))
      <==> LeavesOthers(key, token)
  {
    hide Load, Save, LeavesOthers;
    if LeavesOthers(key, token) {
      forall file, other | other != key ensures Load(Save(file, key, token), other) == Load(file, other) {
        OthersLoad(file, key, token, other);
      }
    } else {
      var other := IntruderLoads(key, token);
    }
  }

  lemma {:induction false} TwoEntries(key: string, a: string, other: string, b: string)
    requires GoodKey(key) && GoodKey(other) && other != key
    requires OneLine(a) && OneLine(b) && Trimmed(b) && b != ""
    ensures var lines := [NewLine(key, a), NewLine(other, b)];
      FileLines(Some(Concat(lines))) == lines && LoadLines(lines, other) == b
  {
    hide NewLine, Strip, Entry, Proper;
    var lines := [NewLine(key, a), NewLine(other, b)];
    NewLineEntry(key, a);
    NewLineEntry(other, b);
    TrimmedStrip(b);
    NewLineProper(key, a);
    NewLineProper(other, b);
    ReadBack(lines);
    assert lines[1..] == [NewLine(other, b)];
  }

  /** The one-line condition is needed: a line break in a token makes an entry for another key. */
  lemma {:induction false} LineBreakMakesEntry(key: string, a: string, other: string, b: string)
    requires GoodKey(key) && GoodKey(other) && other != key
    requires OneLine(a) && OneLine(b) && Trimmed(b) && b != ""
    ensures Load(None, other) == "" && Load(Save(None, key, a + "\n" + other + ": " + b), other) == b
  {
    hide Entry, GoodKey, HasKey;
    var token := a + "\n" + other + ": " + b;
    var one, two := [NewLine(key, token)], [NewLine(key, a), NewLine(other, b)];
    assert SavedLines([], key, token) == one;
    assert Concat(one) == Concat(two) by {
      assert one[1..] == [] && two[1..] == [NewLine(other, b)] && two[1..][1..] == [];
      assert NewLine(key, token) == NewLine(key, a) + NewLine(other, b);
    }
    TwoEntries(key, a, other, b);
  }

  lemma {:induction false} RewrittenOne(line: string, key: string, token: string)
    ensures Rewritten([line], key, token) == RewriteLine(line, key, token)
  {
    hide RewriteLine;
    assert [line][1..] == [];
    assert Rewritten([], key, token) == [];
  }

  lemma {:induction false} RewriteLineTwice(line: string, key: string, first: string, second: string)
    requires GoodKey(key) && Strip(first) != "" && first != ""
    ensures Rewritten(RewriteLine(line, key, first), key, second) == RewriteLine(line, key, second)
  {
    NewLineEntry(key, first);
    TerminatedHasKey(line, key);
    assert Terminated(Terminated(line)) == Terminated(line);
    hide Strip, Entry, NewLine, GoodKey, Terminated, Rewritten;
    RewrittenOne(NewLine(key, first), key, second);
    RewrittenOne(Terminated(line), key, second);
  }

  lemma {:induction false} RewriteTwice(lines: seq<string>, key: string, first: string, second: string)
    requires GoodKey(key) && Strip(first) != "" && first != ""
    ensures Rewritten(Rewritten(lines, key, first), key, second) == Rewritten(lines, key, second)
  {
    hide RewriteLine, GoodKey, Strip;
    if lines != [] {
      RewriteLineTwice(lines[0], key, first, second);
      RewriteTwice(lines[1..], key, first, second);
      RewrittenConcat(RewriteLine(lines[0], key, first), Rewritten(lines[1..], key, first), key, second);
    }
  }

  /** What a second save makes forgotten: under a key that can be recorded, a token that is not
      blank and is read back as one line; under any other key, only the empty token. */
  predicate Forgettable(key: string, first: string) {
    if GoodKey(key) then Strip(first) != "" && |Broken(NewLine(key, first))| == 1 else first == ""
  }

  /** A second save makes the first one as if it had never happened, the file being the same
      character for character, for every file and every second token, if and only if the first
      token is forgettable. */
  lemma {:induction false} LastSaveWins(key: string, first: string)
    ensures (forall file, second :: Save(Save(file, key, first), key, second) == Save(file, key, second))
      <==> Forgettable(key, first)
  {
    hide Save, Strip, Broken;
    if Forgettable(key, first) {
      forall file, second ensures Save(Save(file, key, first), key, second) == Save(file, key, second) {
        if GoodKey(key) {
          GoodForgets(file, key, first, second);
        } else {
          BadForgets(file, key, second);
        }
      }
    } else if first == "" {
      EmptyForgets(key);
    } else if GoodKey(key) {
      GoodStays(key, first);
    } else {
      BadStays(key, first);
    }
  }

  lemma {:induction false} SaveIs(file: Option<string>, key: string, token: string)
    ensures Save(file, key, token) == Some(Concat(SavedLines(FileLines(file), key, token)))
  {
  }

  lemma {:induction false} RewriteAdded(key: string, first: string, second: string)
    requires GoodKey(key) && Strip(first) != ""
    ensures Mentions([NewLine(key, first)], key)
    ensures Rewritten([NewLine(key, first)], key, second) == if second != "" then [NewLine(key, second)] else []
  {
    hide Strip, Entry, NewLine, GoodKey;
    var added := [NewLine(key, first)];
    NewLineEntry(key, first);
    assert added[0] in added && added[1..] == [];
  }

  lemma {:induction false} SavedTwice(lines: seq<string>, key: string, first: string, second: string)
    requires GoodKey(key) && Strip(first) != ""
    ensures SavedLines(SavedLines(lines, key, first), key, second) == SavedLines(lines, key, second)
  {
    assert first != "" by {
      assert Strip("") == "";
    }
    hide RewriteLine, GoodKey, Strip, Rewritten, HasKey, NewLine, Mentions, SavedLines;
    var once, added := Rewritten(lines, key, first), [NewLine(key, first)];
    RewriteTwice(lines, key, first, second);
    RewrittenLoads(lines, key, first, key);
    if Mentions(lines, key) {
      SavedOver(lines, key, first);
      SavedOver(once, key, second);
      SavedOver(lines, key, second);
    } else {
      RewriteAdded(key, first, second);
      SavedNew(lines, key, first);
      SavedNew(lines, key, second);
      MentionsConcat(once, added, key);
      SavedOver(once + added, key, second);
      RewrittenConcat(once, added, key, second);
    }
  }

  lemma {:induction false} SavedOver(lines: seq<string>, key: string, token: string)
    requires Mentions(lines, key)
    ensures SavedLines(lines, key, token) == Rewritten(lines, key, token)
  {
    hide Rewritten, NewLine, Mentions;
  }

  lemma {:induction false} SavedNew(lines: seq<string>, key: string, token: string)
    requires !Mentions(lines, key)
    ensures SavedLines(lines, key, token) == Rewritten(lines, key, token) + if token != "" then [NewLine(key, token)] else []
  {
    hide Rewritten, NewLine, Mentions;
  }

  /** What is translated to one line is that line, up to a carriage return before the newline. */
  lemma {:induction false} TranslateOne(s: string, a: string)
    requires Translate(s + "\n") == a + "\n" && '\n' !in a
    ensures s == a || s == a + "\r"
  {
    var t := s + "\n";
    if s == "" {
      assert t == "\n" && t[1..] == "";
    } else if s[0] == '\r' {
      var left := if t[1] == '\n' then t[2..] else t[1..];
      assert Translate(t) == "\n" + Translate(left);
      assert (a + "\n")[0] == '\n';
      if |s| > 1 {
        assert EndsLine(left);
        TranslateEnds(left);
        assert false;
      }
      assert s == "\r" == "" + "\r";
    } else {
      assert t[1..] == s[1..] + "\n";
      assert Translate(t) == [s[0]] + Translate(s[1..] + "\n");
      TranslateEnds(s[1..] + "\n");
      assert a != "";
      assert (a + "\n")[1..] == a[1..] + "\n";
      assert (a + "\n")[0] == a[0] == s[0];
      assert forall c :: c in a[1..] ==> c in a;
      TranslateOne(s[1..], a[1..]);
      assert s == [s[0]] + s[1..] && a == [a[0]] + a[1..];
      assert [a[0]] + (a[1..] + "\r") == a + "\r";
    }
  }

  lemma {:induction false} OneLineOf(t: string)
    requires EndsLine(t) && |Lines(t)| == 1
    ensures NewlineAt(t) == |t| - 1
  {
    FirstOf(t);
    hide NewlineAt;
  }

  /** A token that is read back as one line: which line that is. */
  lemma {:induction false} OneBrokenLine(key: string, token: string) returns (clean: string)
    requires OneLine(key) && |Broken(NewLine(key, token))| == 1
    ensures OneLine(clean) && Broken(NewLine(key, token)) == [NewLine(key, clean)] && Strip(clean) == Strip(token)
  {
    hide Translate, Lines, NewlineAt, Strip;
    var head, rest := key + ": ", Translate(token + "\n");
    TranslateConcat(head, token + "\n");
    TranslateEnds(token + "\n");
    assert NewLine(key, token) == head + (token + "\n");
    var t := head + rest;
    FirstOf(t);
    OneLineOf(t);
    clean := rest[..|rest| - 1];
    assert rest == clean + "\n";
    assert t == NewLine(key, clean);
    assert Lines(t)[0] == t[..|t|] == t;
    assert t[..|t| - 1] == head + clean;
    assert OneLine(clean) by {
      assert forall c :: c in clean ==> c in t[..|t| - 1] && c in rest;
    }
    TranslateOne(token, clean);
    StripSnoc(clean, '\r');
  }

  lemma {:induction false} RewrittenReads(lines: seq<string>, key: string, first: string, clean: string)
    requires first != "" && clean != "" && Broken(NewLine(key, first)) == [NewLine(key, clean)]
    requires forall l :: l in lines ==> Proper(Terminated(l))
    ensures AllBroken(Rewritten(lines, key, first)) == Rewritten(lines, key, clean)
  {
    hide HasKey, Broken, NewLine, Terminated, Proper;
    if lines != [] {
      var line, rest := lines[0], lines[1..];
      assert line in lines;
      RewrittenReads(rest, key, first, clean);
      var piece := if HasKey(line, key) then NewLine(key, first) else Terminated(line);
      if !HasKey(line, key) {
        ProperBroken(piece);
      }
      assert Rewritten(lines, key, first) == [piece] + Rewritten(rest, key, first);
      AllBrokenConcat([piece], Rewritten(rest, key, first));
      OneBroken(piece);
    }
  }

  lemma {:induction false} SavedReads(file: Option<string>, key: string, first: string, clean: string)
    requires first != "" && clean != "" && Broken(NewLine(key, first)) == [NewLine(key, clean)]
    ensures FileLines(Save(file, key, first)) == SavedLines(FileLines(file), key, clean)
  {
    hide HasKey, NewLine, Mentions, Translate, Lines;
    var lines := FileLines(file);
    FileLinesProper(file);
    RewrittenReads(lines, key, first, clean);
    PiecesEndLines(lines, key, first);
    ConcatBroken(SavedLines(lines, key, first));
    SaveIs(file, key, first);
    LinesOfText(Concat(SavedLines(lines, key, first)));
    hide Broken, Rewritten, Save, FileLines, SavedLines;
    if Mentions(lines, key) {
      SavedOver(lines, key, first);
      SavedOver(lines, key, clean);
    } else {
      SavedNew(lines, key, first);
      SavedNew(lines, key, clean);
      AllBrokenConcat(Rewritten(lines, key, first), [NewLine(key, first)]);
      OneBroken(NewLine(key, first));
    }
  }

  lemma {:induction false} GoodForgets(file: Option<string>, key: string, first: string, second: string)
    requires GoodKey(key) && Strip(first) != "" && |Broken(NewLine(key, first))| == 1
    ensures Save(Save(file, key, first), key, second) == Save(file, key, second)
  {
    assert OneLine(key) && Strip("") == "";
    hide GoodKey, Strip, Broken;
    var clean := OneBrokenLine(key, first);
    SavedReads(file, key, first, clean);
    SavedTwice(FileLines(file), key, clean, second);
    hide Save;
    SaveIs(Save(file, key, first), key, second);
    SaveIs(file, key, second);
  }

  lemma {:induction false} RewrittenCount(lines: seq<string>, key: string, token: string)
    requires token != ""
    ensures |Rewritten(lines, key, token)| == |lines|
  {
    if lines != [] {
      RewrittenCount(lines[1..], key, token);
    }
  }

  lemma {:induction false} FirstSaveLines(key: string, token: string)
    requires token != ""
    ensures FileLines(Save(None, key, token)) == Broken(NewLine(key, token)) != []
  {
    FirstSave(key, token);
    hide Save, Lines, Translate;
    NewLineEnds(key, token);
    TranslateEnds(NewLine(key, token));
    FirstOf(Translate(NewLine(key, token)));
  }

  /** A line of a blank token, or a further line of any, stays. */
  lemma {:induction false} GoodStays(key: string, first: string)
    requires GoodKey(key) && first != "" && !(Strip(first) != "" && |Broken(NewLine(key, first))| == 1)
    ensures Save(Save(None, key, first), key, "x") != Save(None, key, "x")
  {
    assert OneLine(key);
    var b, x := Broken(NewLine(key, first)), NewLine(key, "x");
    FirstSaveLines(key, first);
    FirstSave(key, "x");
    FileLinesProper(Save(None, key, first));
    hide GoodKey, Strip, Broken, Entry, NewLine, Proper, Lines, Translate, FileLines;
    SaveIs(Save(None, key, first), key, "x");
    hide Save;
    var pieces := SavedLines(b, key, "x");
    RewrittenProper(b, key, "x");
    NewLineProper(key, "x");
    RewrittenCount(b, key, "x");
    if Concat(pieces) == x {
      ReadBack(pieces);
      ReadBack([x]);
      ConcatOne(x);
      assert |pieces| == 1;
      assert |b| == 1 && Mentions(b, key);
      var clean := OneBrokenLine(key, first);
      NewLineEntry(key, clean);
      assert false;
    }
  }

  lemma {:induction false} ConcatAppend(a: seq<string>, b: seq<string>)
    ensures Concat(a + b) == Concat(a) + Concat(b)
  {
    if a == [] {
      assert a + b == b;
    } else {
      assert (a + b)[1..] == a[1..] + b;
      ConcatAppend(a[1..], b);
    }
  }

  /** Under a key that cannot be recorded every save adds a line. */
  lemma {:induction false} BadStays(key: string, first: string)
    requires !GoodKey(key) && first != ""
    ensures Save(Save(None, key, first), key, "x") != Save(None, key, "x")
  {
    var b, x := FileLines(Save(None, key, first)), NewLine(key, "x");
    FirstSaveLines(key, first);
    FirstSave(key, "x");
    FileLinesProper(Save(None, key, first));
    NeverRecorded(b, key);
    SaveIs(Save(None, key, first), key, "x");
    hide GoodKey, Broken, NewLine, Proper, FileLines, Save, Mentions;
    SavedNew(b, key, "x");
    ConcatAppend(Rewritten(b, key, "x"), [x]);
    ConcatOne(x);
    RewrittenCount(b, key, "x");
    RewrittenEnds(b, key, "x");
    assert Rewritten(b, key, "x")[0] in Rewritten(b, key, "x");
  }

  /** Rewriting without an entry of the key only adds a missing newline. */
  lemma {:induction false} Unmentioned(lines: seq<string>, key: string, token: string)
    requires !Mentions(lines, key) && forall l :: l in lines ==> Proper(Terminated(l))
    ensures var kept := Rewritten(lines, key, "");
      kept == Rewritten(lines, key, token) == Rewritten(kept, key, token) && AllBroken(kept) == kept
      && !Mentions(kept, key)
  {
    hide Entry, Broken, Proper, NewLine;
    if lines != [] {
      var line, rest := lines[0], lines[1..];
      assert line in lines && forall l :: l in rest ==> l in lines;
      Unmentioned(rest, key, token);
      var kept, whole := Rewritten(rest, key, ""), Terminated(line);
      TerminatedHasKey(line, key);
      assert Terminated(whole) == whole;
      hide Terminated;
      ProperBroken(whole);
      assert Rewritten(lines, key, "") == [whole] + kept;
      RewrittenConcat([whole], kept, key, token);
      RewrittenOne(whole, key, token);
      AllBrokenConcat([whole], kept);
      OneBroken(whole);
    }
  }

  lemma {:induction false} BadForgets(file: Option<string>, key: string, second: string)
    requires !GoodKey(key)
    ensures Save(Save(file, key, ""), key, second) == Save(file, key, second)
  {
    var lines := FileLines(file);
    FileLinesProper(file);
    NeverRecorded(lines, key);
    Unmentioned(lines, key, second);
    hide GoodKey, Broken, Proper, NewLine, Mentions, Lines, Translate;
    var kept := Rewritten(lines, key, "");
    SavedNew(lines, key, "");
    assert SavedLines(lines, key, "") == kept;
    PiecesEndLines(lines, key, "");
    ConcatBroken(kept);
    assert FileLines(Save(file, key, "")) == kept by {
      SaveIs(file, key, "");
      hide Save, SavedLines;
      assert FileLines(Some(Concat(kept))) == Broken(Concat(kept)) by {
        LinesOfText(Concat(kept));
      }
    }
    hide Save;
    SavedNew(kept, key, second);
    SavedNew(lines, key, second);
    SaveIs(Save(file, key, ""), key, second);
    SaveIs(file, key, second);
  }

  lemma {:induction false} LinesOfText(text: string)
    ensures FileLines(Some(text)) == Broken(text)
  {
  }

  lemma {:induction false} NotRewritten(line: string, key: string, token: string)
    requires !HasKey(line, key) && EndsLine(line)
    ensures Rewritten([line], key, token) == [line]
  {
    RewrittenOne(line, key, token);
  }

  lemma {:induction false} ConcatOne(a: string)
    ensures Concat([a]) == a
  {
    assert [a][1..] == [] && Concat([]) == "";
  }

  lemma {:induction false} ConcatTwo(a: string, b: string)
    ensures Concat([a] + [b]) == a + b
  {
    assert ([a] + [b])[1..] == [b];
    ConcatOne(b);
  }

  lemma {:induction false} EmptyForgets(key: string)
    requires GoodKey(key)
    ensures var file := Some(NewLine(key, "a") + "\n");
      Save(Save(file, key, ""), key, "x") != Save(file, key, "x")
  {
    hide Strip, Entry, Translate, Lines, RewriteLine, FindSep;
    var before, added, blank := NewLine(key, "a"), NewLine(key, "x"), "\n";
    var file := Some(before + blank);
    NewLineProper(key, "a");
    assert Proper(blank) by {
      assert blank[..0] == "";
    }
    ReadBack([before] + [blank]);
    ConcatTwo(before, blank);
    assert FileLines(file) == [before] + [blank];
    NewLineEntry(key, "a");
    TrimmedStrip("a");
    BlankLine();
    RewrittenConcat([before], [blank], key, "");
    RewrittenConcat([before], [blank], key, "x");
    RewrittenOne(before, key, "");
    RewrittenOne(before, key, "x");
    NotRewritten(blank, key, "");
    NotRewritten(blank, key, "x");
    assert HasKey(before, key);
    assert RewriteLine(before, key, "") == [] && RewriteLine(before, key, "x") == [added] by {
      RewriteEntry(before, key);
    }
    SavedFileLines(file, key, "");
    assert SavedLines([before] + [blank], key, "") == [blank];
    assert ([before] + [blank])[0] == before && Mentions([before] + [blank], key);
    assert SavedLines([before] + [blank], key, "x") == [added] + [blank];
    assert !Mentions([blank], key);
    assert SavedLines([blank], key, "x") == [blank] + [added];
    ConcatTwo(blank, added);
    ConcatTwo(added, blank);
    assert (blank + added)[0] == '\n';
    assert (added + blank)[0] != '\n' by {
      assert key != "" ==> key[0] in key;
    }
  }

  lemma {:induction false} RewriteEntry(line: string, key: string)
    requires HasKey(line, key)
    ensures RewriteLine(line, key, "") == [] && RewriteLine(line, key, "x") == [NewLine(key, "x")]
  {
  }

  lemma {:induction false} BlankLine()
    ensures Entry("\n").None?
  {
    StripSnoc("", '\n');
    assert "" + ['\n'] == "\n";
    assert Strip("") == "";
  }
}
