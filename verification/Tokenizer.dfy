// The web console's command-line tokenizer: quotes and backslashes, nothing expanded.
module Tokenizer {
  import opened Base
  import opened Text

  datatype Unterminated = UnterminatedQuote

  datatype Scanner = Scanner(out: seq<string>, cur: string, inSingle: bool, inDouble: bool, started: bool)

  const Fresh := Scanner([], "", false, false, false)

  function Take(s: Scanner, c: char): Scanner {
    s.(cur := s.cur + [c], started := true)
  }

  function Flush(s: Scanner): Scanner {
    if s.started then s.(out := s.out + [s.cur], cur := "", started := false) else s
  }

  // What one step consumes and does: a character, or a backslash and the character after it; a
  // backslash with nothing after it is dropped.
  function Next(line: string, s: Scanner): (r: (nat, Scanner))
    requires line != ""
    ensures 1 <= r.0 <= |line|
  {
    var c := line[0];
    if c == '\'' && !s.inDouble then (1, s.(inSingle := !s.inSingle, started := true))
    else if c == '"' && !s.inSingle then (1, s.(inDouble := !s.inDouble, started := true))
    else if c == '\\' && !s.inSingle then
      if |line| == 1 then (1, s) else (2, Take(s, line[1]))
    else if IsSpace(c) && !s.inSingle && !s.inDouble then (1, Flush(s))
    else (1, Take(s, c))
  }

  function Scan(line: string, s: Scanner): Scanner
    decreases |line|
  {
    if line == "" then s
    else
      var (n, s') := Next(line, s);
      Scan(line[n..], s')
  }

  function Finish(s: Scanner): Result<seq<string>, Unterminated> {
    if s.inSingle || s.inDouble then Err(UnterminatedQuote)
    else if s.started then Ok(s.out + [s.cur])
    else Ok(s.out)
  }

  function Tokens(line: string): Result<seq<string>, Unterminated> {
    Finish(Scan(line, Fresh))
  }

  method Tokenize(line: string) returns (r: Result<seq<string>, Unterminated>)
    ensures r == Tokens(line)
  {
    var out: seq<string>, cur := [], "";
    var inSingle, inDouble, started := false, false, false;
    var i := 0;
    while i < |line|
      invariant 0 <= i <= |line|
      invariant started || cur == ""
      invariant Scan(line[i..], Scanner(out, cur, inSingle, inDouble, started)) == Scan(line, Fresh)
    {
      var c := line[i];
      assert line[i..][1..] == line[i + 1..];
      i := i + 1;
      if c == '\'' && !inDouble {
        inSingle := !inSingle;
        started := true;
      } else if c == '"' && !inSingle {
        inDouble := !inDouble;
        started := true;
      } else if c == '\\' && !inSingle {
        if i < |line| {
          assert line[i - 1..][2..] == line[i + 1..];
          cur := cur + [line[i]];
          i := i + 1;
          started := true;
        }
      } else if IsSpace(c) && !inSingle && !inDouble {
        if started {
          out, cur := out + [cur], "";
          started := false;
        }
      } else {
        cur := cur + [c];
        started := true;
      }
    }
    if inSingle || inDouble {
      return Err(UnterminatedQuote);
    }
    if started {
      out := out + [cur];
    }
    return Ok(out);
  }

  // ----- reading two lines as one ----------------------------------------------------

  // The scan of `line` ends on a backslash that has nothing to escape.
  predicate Dangles(line: string, s: Scanner)
    decreases |line|
  {
    if line == "" then false
    else if line == "\\" then !s.inSingle
    else
      var (n, s') := Next(line, s);
      Dangles(line[n..], s')
  }

  lemma {:induction false} ScanConcatenates(a: string, b: string, s: Scanner)
    requires !Dangles(a, s)
    ensures Scan(a + b, s) == Scan(b, Scan(a, s))
    decreases |a|
  {
    if a == "" {
      assert a + b == b;
    } else {
      var (n, s') := Next(a, s);
      assert Next(a + b, s) == (n, s');
      assert (a + b)[n..] == a[n..] + b;
      assert !Dangles(a[n..], s');
      ScanConcatenates(a[n..], b, s');
    }
  }

  // Left dangling, the backslash takes the next character into the current token.
  lemma {:induction false} DanglingTakesNext(a: string, c: char, s: Scanner)
    requires Dangles(a, s)
    ensures Scan(a + [c], s) == Take(Scan(a, s), c)
    decreases |a|
  {
    var (n, s') := Next(a, s);
    if a == "\\" {
      assert (a + [c])[2..] == "" && a[1..] == "";
    } else {
      assert Next(a + [c], s) == (n, s') && (a + [c])[n..] == a[n..] + [c];
      DanglingTakesNext(a[n..], c, s');
    }
  }

  // Tokens already out do not influence the scan.
  lemma {:induction false} OutIsCarried(line: string, s: Scanner, before: seq<string>)
    ensures Scan(line, s.(out := before + s.out)) == Scan(line, s).(out := before + Scan(line, s).out)
    decreases |line|
  {
    if line != "" {
      var (n, s') := Next(line, s);
      assert before + (s.out + [s.cur]) == before + s.out + [s.cur];
      OutIsCarried(line[n..], s', before);
    }
  }

  // The tokens of both lines, or the second line's error.
  function Both(xs: seq<string>, b: Result<seq<string>, Unterminated>): Result<seq<string>, Unterminated> {
    match b
    case Err(e) => Err(e)
    case Ok(ys) => Ok(xs + ys)
  }

  // A scanner that is between tokens has nothing pending.
  predicate Tidy(s: Scanner) {
    s.started || s.cur == ""
  }

  lemma {:induction false} ScanStaysTidy(line: string, s: Scanner)
    requires Tidy(s)
    ensures Tidy(Scan(line, s))
    decreases |line|
  {
    if line != "" {
      var (n, s') := Next(line, s);
      ScanStaysTidy(line[n..], s');
    }
  }

  lemma JoinedLines(a: string, b: string)
    requires Tokens(a).Ok? && !Dangles(a, Fresh)
    ensures Tokens(a + " " + b) == Both(Tokens(a).value, Tokens(b))
  {
    var s := Scan(a, Fresh);
    ScanStaysTidy(a, Fresh);
    assert a + " " + b == a + (" " + b);
    ScanConcatenates(a, " " + b, Fresh);
    assert (" " + b)[1..] == b;
    assert Scan(" " + b, s) == Scan(b, Flush(s));
    assert Flush(s) == Fresh.(out := Tokens(a).value + Fresh.out);
    OutIsCarried(b, Fresh, Tokens(a).value);
    var t := Scan(b, Fresh);
    assert Tokens(a).value + (t.out + [t.cur]) == Tokens(a).value + t.out + [t.cur];
  }

  // For a line that tokenizes on its own: joining it by a space to any other gives the tokens of
  // both exactly when it has no dangling backslash.
  lemma JoiningIsConcatenationExactly(a: string)
    requires Tokens(a).Ok?
    ensures (forall b: string :: Tokens(a + " " + b) == Both(Tokens(a).value, Tokens(b))) <==> !Dangles(a, Fresh)
  {
    if Dangles(a, Fresh) {
      var s := Scan(a, Fresh);
      DanglingTakesNext(a, ' ', Fresh);
      assert a + " " + "" == a + [' '];
      assert Tokens(a + " " + "") == Ok(s.out + [s.cur + " "]);
      assert Tokens("") == Ok([]);
      assert (s.out + [s.cur + " "])[|s.out|] == s.cur + " " != s.cur == (s.out + [s.cur])[|s.out|];
      assert Tokens(a + " " + "") != Both(Tokens(a).value, Tokens(""));
    } else {
      forall b: string
        ensures Tokens(a + " " + b) == Both(Tokens(a).value, Tokens(b))
      {
        JoinedLines(a, b);
      }
    }
  }

  // ----- quoting ---------------------------------------------------------------------

  function Escape(w: string): string {
    if w == "" then ""
    else if w[0] == '"' || w[0] == '\\' then ['\\', w[0]] + Escape(w[1..])
    else [w[0]] + Escape(w[1..])
  }

  function Quote(w: string): string {
    "\"" + (Escape(w) + "\"")
  }

  function QuotedLine(ws: seq<string>): string {
    if ws == [] then ""
    else if |ws| == 1 then Quote(ws[0])
    else Quote(ws[0]) + " " + QuotedLine(ws[1..])
  }

  lemma {:induction false} EscapedScans(w: string, rest: string, s: Scanner)
    requires s.inDouble && !s.inSingle && s.started
    ensures Scan(Escape(w) + rest, s) == Scan(rest, s.(cur := s.cur + w))
    ensures Dangles(Escape(w) + rest, s) == Dangles(rest, s.(cur := s.cur + w))
  {
    var line := Escape(w) + rest;
    if w == "" {
      assert line == rest && s.cur + w == s.cur;
    } else {
      assert s.cur + [w[0]] + w[1..] == s.cur + w;
      EscapedScans(w[1..], rest, Take(s, w[0]));
      if w[0] == '"' || w[0] == '\\' {
        assert line[0] == '\\' && line[1] == w[0] && line[2..] == Escape(w[1..]) + rest;
      } else {
        assert line[0] == w[0] && line[1..] == Escape(w[1..]) + rest;
      }
    }
  }

  lemma QuotedIsOneToken(w: string)
    ensures Tokens(Quote(w)) == Ok([w]) && !Dangles(Quote(w), Fresh)
  {
    var s := Fresh.(inDouble := true, started := true);
    assert Quote(w)[1..] == Escape(w) + "\"";
    EscapedScans(w, "\"", s);
    assert Quote(w) != "\\";
    assert s.cur + w == w && [] + [w] == [w];
    var t := s.(cur := w);
    assert "\""[1..] == "";
    assert Scan("\"", t) == t.(inDouble := false);
  }

  // Any list of strings, quoted and joined by spaces, tokenizes back to the list.
  lemma {:induction false} QuotedLineRoundTrip(ws: seq<string>)
    ensures Tokens(QuotedLine(ws)) == Ok(ws)
  {
    if ws != [] {
      QuotedIsOneToken(ws[0]);
      if |ws| == 1 {
        assert ws == [ws[0]];
      } else {
        QuotedLineRoundTrip(ws[1..]);
        JoinedLines(Quote(ws[0]), QuotedLine(ws[1..]));
        assert ws == [ws[0]] + ws[1..];
      }
    }
  }

  // ----- every way to write a word ---------------------------------------------------

  // A piece of a word: between double quotes, between single quotes, a character after a
  // backslash, or a character as it is.
  datatype Piece = Doubled(text: string) | Singled(text: string) | Escaped(c: char) | Bare(c: char)

  predicate Writable(p: Piece) {
    match p
    case Doubled(_) => true
    case Singled(t) => '\'' !in t
    case Escaped(_) => true
    case Bare(c) => c != '\'' && c != '"' && c != '\\' && !IsSpace(c)
  }

  function Show(p: Piece): string {
    match p
    case Doubled(t) => Quote(t)
    case Singled(t) => "'" + (t + "'")
    case Escaped(c) => ['\\', c]
    case Bare(c) => [c]
  }

  function Value(p: Piece): string {
    match p
    case Doubled(t) => t
    case Singled(t) => t
    case Escaped(c) => [c]
    case Bare(c) => [c]
  }

  predicate Outside(s: Scanner) {
    !s.inSingle && !s.inDouble
  }

  type Scanning = (string, Scanner) -> Scanner

  function Scanned(): Scanning {
    (line, s) => Scan(line, s)
  }

  // Whatever follows, scanning `text` takes the scanner from one state to the other.
  ghost predicate ReadsBy(scan: Scanning, text: string, s: Scanner, s': Scanner) {
    forall rest: string :: scan(text + rest, s) == scan(rest, s')
  }

  ghost predicate Reads(text: string, s: Scanner, s': Scanner) {
    ReadsBy(Scanned(), text, s, s')
  }

  lemma ReadsByBoth(scan: Scanning, a: string, b: string, s: Scanner, mid: Scanner, s': Scanner)
    requires ReadsBy(scan, a, s, mid) && ReadsBy(scan, b, mid, s')
    ensures ReadsBy(scan, a + b, s, s')
  {
    forall rest: string
      ensures scan(a + b + rest, s) == scan(rest, s')
    {
      assert a + b + rest == a + (b + rest);
      assert scan(a + (b + rest), s) == scan(b + rest, mid);
    }
  }

  lemma ReadsBoth(a: string, b: string, s: Scanner, mid: Scanner, s': Scanner)
    requires Reads(a, s, mid) && Reads(b, mid, s')
    ensures Reads(a + b, s, s')
  {
    ReadsByBoth(Scanned(), a, b, s, mid, s');
  }

  lemma ReadsNothingBy(scan: Scanning, s: Scanner)
    ensures ReadsBy(scan, "", s, s)
  {
    forall rest: string
      ensures scan("" + rest, s) == scan(rest, s)
    {
      assert "" + rest == rest;
    }
  }

  lemma ReadsNothing(s: Scanner)
    ensures Reads("", s, s)
  {
    ReadsNothingBy(Scanned(), s);
  }

  lemma ReadsAll(text: string, s: Scanner, s': Scanner)
    requires Reads(text, s, s')
    ensures Scan(text, s) == s'
  {
    assert text + "" == text;
    assert Scanned()(text + "", s) == Scanned()("", s');
  }

  lemma NextScans(text: string, rest: string, s: Scanner, s': Scanner)
    requires text != "" && Next(text + rest, s) == (|text|, s')
    ensures Scan(text + rest, s) == Scan(rest, s')
  {
    assert (text + rest)[|text|..] == rest;
  }

  // One character, or a backslash and one, as `Next` consumes it.
  lemma ReadsNext(text: string, s: Scanner, s': Scanner)
    requires text != "" && forall rest: string :: Next(text + rest, s) == (|text|, s')
    ensures Reads(text, s, s')
  {
    forall rest: string
      ensures Scanned()(text + rest, s) == Scanned()(rest, s')
    {
      NextScans(text, rest, s, s');
    }
  }

  // ----- pieces ----------------------------------------------------------------------

  // Inside single quotes every character but the quote is taken as it is.
  lemma {:induction false} SingledReads(w: string, s: Scanner)
    requires s.inSingle && !s.inDouble && s.started && '\'' !in w
    ensures Reads(w, s, s.(cur := s.cur + w))
  {
    if w == "" {
      assert s.cur + w == s.cur;
      ReadsNothing(s);
    } else {
      assert w[0] in w && [w[0]] + w[1..] == w && s.cur + [w[0]] + w[1..] == s.cur + w;
      ReadsNext([w[0]], s, Take(s, w[0]));
      SingledReads(w[1..], Take(s, w[0]));
      ReadsBoth([w[0]], w[1..], s, Take(s, w[0]), s.(cur := s.cur + w));
    }
  }

  lemma SingledPieceReads(t: string, s: Scanner)
    requires Outside(s) && '\'' !in t
    ensures Reads("'" + (t + "'"), s, s.(cur := s.cur + t, started := true))
  {
    var inside := s.(inSingle := true, started := true);
    ReadsNext("'", s, inside);
    SingledReads(t, inside);
    ReadsNext("'", inside.(cur := s.cur + t), s.(cur := s.cur + t, started := true));
    ReadsBoth(t, "'", inside, inside.(cur := s.cur + t), s.(cur := s.cur + t, started := true));
    ReadsBoth("'", t + "'", s, inside, s.(cur := s.cur + t, started := true));
  }

  lemma EscapedReads(t: string, s: Scanner)
    requires s.inDouble && !s.inSingle && s.started
    ensures Reads(Escape(t), s, s.(cur := s.cur + t))
  {
    forall rest: string
      ensures Scanned()(Escape(t) + rest, s) == Scanned()(rest, s.(cur := s.cur + t))
    {
      EscapedScans(t, rest, s);
    }
  }

  lemma DoubledPieceReads(t: string, s: Scanner)
    requires Outside(s)
    ensures Reads(Quote(t), s, s.(cur := s.cur + t, started := true))
  {
    var inside := s.(inDouble := true, started := true);
    ReadsNext("\"", s, inside);
    EscapedReads(t, inside);
    ReadsNext("\"", inside.(cur := s.cur + t), s.(cur := s.cur + t, started := true));
    ReadsBoth(Escape(t), "\"", inside, inside.(cur := s.cur + t), s.(cur := s.cur + t, started := true));
    ReadsBoth("\"", Escape(t) + "\"", s, inside, s.(cur := s.cur + t, started := true));
  }

  lemma PieceReads(p: Piece, s: Scanner)
    requires Writable(p) && Outside(s)
    ensures Reads(Show(p), s, s.(cur := s.cur + Value(p), started := true))
  {
    match p
    case Doubled(t) => DoubledPieceReads(t, s);
    case Singled(t) => SingledPieceReads(t, s);
    case Escaped(c) => ReadsNext(['\\', c], s, Take(s, c));
    case Bare(c) => ReadsNext([c], s, Take(s, c));
  }

  // ----- words and lines -------------------------------------------------------------

  function ShowWord(ps: seq<Piece>): string {
    if ps == [] then "" else Show(ps[0]) + ShowWord(ps[1..])
  }

  function WordValue(ps: seq<Piece>): string {
    if ps == [] then "" else Value(ps[0]) + WordValue(ps[1..])
  }

  predicate AllWritable(ps: seq<Piece>) {
    forall i :: 0 <= i < |ps| ==> Writable(ps[i])
  }

  function AfterWord(ps: seq<Piece>, s: Scanner): Scanner {
    s.(cur := s.cur + WordValue(ps), started := s.started || ps != [])
  }

  function AfterPiece(p: Piece, s: Scanner): Scanner {
    s.(cur := s.cur + Value(p), started := true)
  }

  lemma AfterFirst(ps: seq<Piece>, s: Scanner)
    ensures ps == [] ==> AfterWord(ps, s) == s
    ensures ps != [] ==> AfterWord(ps[1..], AfterPiece(ps[0], s)) == AfterWord(ps, s)
  {
    if ps != [] {
      assert s.cur + Value(ps[0]) + WordValue(ps[1..]) == s.cur + WordValue(ps);
    } else {
      assert s.cur + "" == s.cur;
    }
  }

  lemma FirstThenRest(first: string, rest: string, s: Scanner, mid: Scanner, s': Scanner)
    requires Reads(first, s, mid) && Reads(rest, mid, s')
    ensures Reads(first + rest, s, s')
  {
    ReadsByBoth(Scanned(), first, rest, s, mid, s');
  }

  lemma {:induction false} WordReads(ps: seq<Piece>, s: Scanner)
    requires AllWritable(ps) && Outside(s)
    ensures Reads(ShowWord(ps), s, AfterWord(ps, s))
    decreases |ps|
  {
    AfterFirst(ps, s);
    if ps == [] {
      ReadsNothing(s);
    } else {
      var mid := AfterPiece(ps[0], s);
      PieceReads(ps[0], s);
      WordReads(ps[1..], mid);
      FirstThenRest(Show(ps[0]), ShowWord(ps[1..]), s, mid, AfterWord(ps, s));
    }
  }

  lemma SpaceReads(c: char, s: Scanner)
    requires IsSpace(c) && Outside(s)
    ensures Reads([c], s, Flush(s))
  {
    ReadsNext([c], s, Flush(s));
  }

  lemma {:induction false} SpacesRead(gap: string, s: Scanner)
    requires gap != "" && AllSpace(gap) && Outside(s)
    ensures Reads(gap, s, Flush(s))
  {
    SpaceReads(gap[0], s);
    if |gap| == 1 {
      assert gap == [gap[0]];
    } else {
      assert gap == [gap[0]] + gap[1..];
      SpacesRead(gap[1..], Flush(s));
      ReadsBoth([gap[0]], gap[1..], s, Flush(s), Flush(s));
    }
  }

  // A word, and the white space after it.
  datatype Spaced = Spaced(word: seq<Piece>, gap: string)

  predicate WellSpaced(line: seq<Spaced>) {
    forall i :: 0 <= i < |line| ==>
      line[i].word != [] && AllWritable(line[i].word) && AllSpace(line[i].gap) && (i + 1 < |line| ==> line[i].gap != "")
  }

  function ShowLine(line: seq<Spaced>): string {
    if line == [] then "" else ShowWord(line[0].word) + (line[0].gap + ShowLine(line[1..]))
  }

  function Values(line: seq<Spaced>): seq<string> {
    if line == [] then [] else [WordValue(line[0].word)] + Values(line[1..])
  }

  // Where a line leaves the scanner: its last word may still be open.
  function LineEnd(line: seq<Spaced>, out: seq<string>): Scanner {
    if line == [] then Fresh.(out := out)
    else if line[0].gap == "" then Fresh.(out := out, cur := WordValue(line[0].word), started := true)
    else LineEnd(line[1..], out + [WordValue(line[0].word)])
  }

  lemma {:induction false} LineEndFinishes(line: seq<Spaced>, out: seq<string>)
    requires WellSpaced(line)
    ensures Finish(LineEnd(line, out)) == Ok(out + Values(line))
  {
    if line == [] {
      assert out + [] == out;
    } else {
      assert forall i :: 0 <= i < |line| - 1 ==> line[1..][i] == line[i + 1];
      assert out + [WordValue(line[0].word)] + Values(line[1..]) == out + Values(line);
      if line[0].gap == "" {
        assert line[1..] == [];
        assert Values(line) == [WordValue(line[0].word)];
      } else {
        LineEndFinishes(line[1..], out + [WordValue(line[0].word)]);
      }
    }
  }

  lemma {:induction false} LineReads(line: seq<Spaced>, out: seq<string>)
    requires WellSpaced(line)
    ensures Reads(ShowLine(line), Fresh.(out := out), LineEnd(line, out))
  {
    var s := Fresh.(out := out);
    if line == [] {
      ReadsNothing(s);
    } else {
      var w, gap, rest := line[0].word, line[0].gap, ShowLine(line[1..]);
      var mid := s.(cur := WordValue(w), started := true);
      assert s.cur + WordValue(w) == WordValue(w) && forall i :: 0 <= i < |line| - 1 ==> line[1..][i] == line[i + 1];
      WordReads(w, s);
      assert AfterWord(w, s) == mid;
      if gap == "" {
        assert line[1..] == [] && gap + rest == "";
        ReadsNothing(mid);
      } else {
        SpacesRead(gap, mid);
        LineReads(line[1..], out + [WordValue(w)]);
        ReadsBoth(gap, rest, mid, Flush(mid), LineEnd(line, out));
      }
      ReadsBoth(ShowWord(w), gap + rest, s, mid, LineEnd(line, out));
    }
  }

  // Words written in any mixture of quotes, backslashes and plain characters, with any white
  // space before, between and after them, tokenize to what they say.
  lemma WrittenLineTokenizes(before: string, line: seq<Spaced>)
    requires AllSpace(before) && WellSpaced(line)
    ensures Tokens(before + ShowLine(line)) == Ok(Values(line))
  {
    if before == "" {
      ReadsNothing(Fresh);
    } else {
      SpacesRead(before, Fresh);
    }
    LineReads(line, []);
    assert Fresh.(out := []) == Fresh == Flush(Fresh);
    ReadsBoth(before, ShowLine(line), Fresh, Fresh, LineEnd(line, []));
    ReadsAll(before + ShowLine(line), Fresh, LineEnd(line, []));
    LineEndFinishes(line, []);
    assert [] + Values(line) == Values(line);
  }

  // A quote left open after such a word is refused.
  lemma OpenQuoteIsRefused(ps: seq<Piece>, double: bool, w: string)
    requires AllWritable(ps) && (double || '\'' !in w)
    ensures Tokens(ShowWord(ps) + (if double then "\"" + Escape(w) else "'" + w)) == Err(UnterminatedQuote)
  {
    var s := AfterWord(ps, Fresh);
    var inside := if double then s.(inDouble := true, started := true) else s.(inSingle := true, started := true);
    WordReads(ps, Fresh);
    if double {
      ReadsNext("\"", s, inside);
      EscapedReads(w, inside);
      ReadsBoth("\"", Escape(w), s, inside, inside.(cur := s.cur + w));
    } else {
      ReadsNext("'", s, inside);
      SingledReads(w, inside);
      ReadsBoth("'", w, s, inside, inside.(cur := s.cur + w));
    }
    var tail := if double then "\"" + Escape(w) else "'" + w;
    ReadsBoth(ShowWord(ps), tail, Fresh, s, inside.(cur := s.cur + w));
    ReadsAll(ShowWord(ps) + tail, Fresh, inside.(cur := s.cur + w));
  }
}
