/** Selecting files by patterns (src/staging.cpp). */
module Staging {
  import opened Bytes
  import opened Regexes

  // ---- What a pattern means ----

  predicate SlashFree(s: string) { '/' !in s }

  /** Direct matching: `**` is any run of characters, `*` any run without a slash, `?` any one character. */
  predicate GlobMatch(p: string, s: string)
    decreases |p|
  {
    if |p| == 0 then |s| == 0
    else if p[0] == '*' && |p| > 1 && p[1] == '*' then
      exists k :: 0 <= k <= |s| && GlobMatch(p[2..], s[k..])
    else if p[0] == '*' then
      exists k :: 0 <= k <= |s| && SlashFree(s[..k]) && GlobMatch(p[1..], s[k..])
    else if p[0] == '?' then |s| > 0 && GlobMatch(p[1..], s[1..])
    else |s| > 0 && s[0] == p[0] && GlobMatch(p[1..], s[1..])
  }

  // ---- The translator ----

  /** The text for the first element of a pattern, and how many characters that element has. */
  function FirstPiece(p: string): (r: (string, nat))
    requires |p| > 0
    ensures 1 <= r.1 <= |p| && |r.0| > 0
  {
    if p[0] == '*' then
      if |p| > 1 && p[1] == '*' then (".*", 2) else ("[^/]*", 1)
    else if p[0] == '?' then (".", 1)
    else if p[0] == '.' then ("\\.", 1)
    else if p[0] == '/' then ("/", 1)
    else if p[0] == '\\' then ("\\\\", 1)
    else if Alphanumeric(p[0]) then ([p[0]], 1)
    else (['\\', p[0]], 1)
  }

  function Body(p: string): string
    decreases |p|
  {
    if |p| == 0 then "" else FirstPiece(p).0 + Body(p[FirstPiece(p).1..])
  }

  method FilePatternToRegex(filePattern: string) returns (regex: string)
    ensures regex == "^" + Body(filePattern) + "$"
  {
    hide Body;
    regex := "^";
    var pos := 0;
    assert filePattern[0..] == filePattern;
    while pos < |filePattern|
      invariant 0 <= pos <= |filePattern|
      invariant regex + Body(filePattern[pos..]) == "^" + Body(filePattern)
    {
      ghost var before, rest := regex, filePattern[pos..];
      var c := filePattern[pos];
      if c == '*' {
        if pos + 1 < |filePattern| && filePattern[pos + 1] == '*' {
          regex := regex + ".*";
          pos := pos + 1;
        } else {
          regex := regex + "[^/]*";
        }
      } else if c == '?' {
        regex := regex + ".";
      } else if c == '.' {
        regex := regex + "\\.";
      } else if c == '/' {
        regex := regex + "/";
      } else if c == '\\' {
        regex := regex + "\\\\";
      } else if Alphanumeric(c) {
        regex := regex + [c];
      } else {
        regex := regex + ['\\'];
        regex := regex + [c];
      }
      pos := pos + 1;
      assert regex == before + FirstPiece(rest).0;
      assert filePattern[pos..] == rest[FirstPiece(rest).1..];
      BodyStep(before, rest);
    }
    BodyEnd();
    assert filePattern[pos..] == "" && regex == regex + "";
    regex := regex + "$";
  }

  lemma BodyStep(before: string, p: string)
    requires |p| > 0
    ensures before + Body(p) == (before + FirstPiece(p).0) + Body(p[FirstPiece(p).1..])
  {
    Associate(before, FirstPiece(p).0, Body(p[FirstPiece(p).1..]));
  }

  lemma BodyEnd()
    ensures Body("") == ""
  {
  }

  // ---- What the emitted text looks like ----

  /** Character `i` stands behind a backslash that escapes it. */
  predicate EscapedAt(t: string, i: nat)
    requires i < |t|
  {
    i > 0 && t[i - 1] == '\\' && !EscapedAt(t, i - 1)
  }

  /** No backslash at the end waits for a character to escape. */
  predicate ClosedText(t: string) { |t| > 0 && t[|t| - 1] == '\\' ==> EscapedAt(t, |t| - 1) }

  lemma {:induction false} EscapedInFront(a: string, b: string, i: nat)
    requires i < |a|
    ensures EscapedAt(a + b, i) <==> EscapedAt(a, i)
  {
    if i > 0 { EscapedInFront(a, b, i - 1); }
  }

  lemma {:induction false} EscapedBehind(a: string, b: string, j: nat)
    requires ClosedText(a) && j < |b|
    ensures EscapedAt(a + b, |a| + j) <==> EscapedAt(b, j)
  {
    if j > 0 {
      EscapedBehind(a, b, j - 1);
    } else if |a| > 0 {
      EscapedInFront(a, b, |a| - 1);
    }
  }

  /** No letter and no digit is ever escaped, so no escape is a class, a control character, an assertion or a back
      reference; and none is left open. */
  lemma {:induction false} EscapesAreHarmless(p: string)
    ensures ClosedText(Body(p))
    ensures forall i :: 0 <= i < |Body(p)| && EscapedAt(Body(p), i) ==>
              var c := Body(p)[i]; !('0' <= c <= '9') && !('A' <= c <= 'Z') && !('a' <= c <= 'z')
    decreases |p|
  {
    if |p| > 0 {
      var (piece, n) := FirstPiece(p);
      var rest := Body(p[n..]);
      EscapesAreHarmless(p[n..]);
      PieceEscapes(p);
      hide FirstPiece, EscapedAt;
      forall i | 0 <= i < |Body(p)| && EscapedAt(Body(p), i)
        ensures var c := Body(p)[i]; !('0' <= c <= '9') && !('A' <= c <= 'Z') && !('a' <= c <= 'z')
      {
        if i < |piece| { EscapedInFront(piece, rest, i); } else { EscapedBehind(piece, rest, i - |piece|); }
      }
      if |rest| > 0 {
        EscapedBehind(piece, rest, |rest| - 1);
      } else {
        assert piece + rest == piece;
      }
    }
  }

  lemma PieceEscapes(p: string)
    requires |p| > 0
    ensures ClosedText(FirstPiece(p).0)
    ensures forall i :: 0 <= i < |FirstPiece(p).0| && EscapedAt(FirstPiece(p).0, i) ==>
              var c := FirstPiece(p).0[i]; !('0' <= c <= '9') && !('A' <= c <= 'Z') && !('a' <= c <= 'z')
  {
    var t := FirstPiece(p).0;
    if |t| >= 2 { assert EscapedAt(t, 1) <==> t[0] == '\\'; }
    if |t| >= 3 { assert t == "[^/]*"; }
  }

  /** A pattern of letters and digits is its own regular expression. */
  lemma {:induction false} LettersAndDigitsStay(p: string)
    requires forall i :: 0 <= i < |p| ==> '0' <= p[i] <= '9' || 'A' <= p[i] <= 'Z' || 'a' <= p[i] <= 'z'
    ensures Body(p) == p
    decreases |p|
  {
    if |p| > 0 {
      LettersAndDigitsStay(p[1..]);
      assert FirstPiece(p) == ([p[0]], 1);
      hide FirstPiece;
      assert p == [p[0]] + p[1..];
    }
  }

  /** Every other character but the wildcards and the slash is escaped. */
  lemma OthersAreEscaped(c: char)
    requires !('0' <= c <= '9') && !('A' <= c <= 'Z') && !('a' <= c <= 'z') && c != '*' && c != '?' && c != '/'
    ensures Body([c]) == ['\\', c]
  {
    assert [c][1..] == "";
  }

  // ---- The translation preserves meaning ----

  /** The term the first element of a pattern becomes. */
  function FirstTerm(p: string): Term
    requires |p| > 0
  {
    if p[0] == '*' then Many(if |p| > 1 && p[1] == '*' then Dot else IsNot('/'))
    else if p[0] == '?' then One(Dot)
    else One(Is(p[0]))
  }

  function Terms(p: string): seq<Term>
    decreases |p|
  {
    if |p| == 0 then [End] else [FirstTerm(p)] + Terms(p[FirstPiece(p).1..])
  }

  /** Nothing the translator emits starts with a quantifier, so pieces do not run into each other. */
  lemma BodyStart(p: string)
    ensures !Quantifier((Body(p) + "$")[0])
  {
  }

  lemma ManyParses(a: Atom, piece: string, rest: string)
    requires (piece == ".*" && a == Dot) || (piece == "[^/]*" && a == IsNot('/'))
    requires |rest| > 0 && rest[0] != '?'
    ensures ParseRegex(piece + rest) == Before(Many(a), ParseRegex(rest))
  {
    var t := piece + rest;
    var n := |piece| - 1;
    assert ParseAtom(t) == Some((a, t[n..]));
    assert t[n..][0] == '*' && t[n..][1..] == rest;
  }

  lemma OneParses(a: Atom, piece: string, rest: string)
    requires (piece == "." && a == Dot)
          || (a.Is? && !SyntaxCharacter(a.c) && piece == [a.c])
          || (a.Is? && !Alphanumeric(a.c) && piece == ['\\', a.c])
    requires |rest| > 0 && !Quantifier(rest[0])
    ensures ParseRegex(piece + rest) == Before(One(a), ParseRegex(rest))
  {
    var t := piece + rest;
    assert t[|piece|..] == rest;
    assert ParseAtom(t) == Some((a, rest));
  }

  lemma PieceParses(p: string, rest: string)
    requires |p| > 0 && |rest| > 0 && !Quantifier(rest[0])
    ensures ParseRegex(FirstPiece(p).0 + rest) == Before(FirstTerm(p), ParseRegex(rest))
  {
    hide ParseRegex, ParseAtom;
    if p[0] == '*' {
      ManyParses(FirstTerm(p).a, FirstPiece(p).0, rest);
    } else {
      OneParses(FirstTerm(p).a, FirstPiece(p).0, rest);
    }
  }

  lemma {:induction false} BodyParses(p: string)
    ensures ParseRegex(Body(p) + "$") == Some(Terms(p))
    decreases |p|
  {
    if |p| == 0 {
      assert Body(p) + "$" == "$" && "$"[1..] == "";
      assert ParseRegex("") == Some([]) && [End] + [] == [End];
    } else {
      hide ParseRegex, FirstPiece;
      var (piece, n) := FirstPiece(p);
      var rest := Body(p[n..]) + "$";
      assert Body(p) + "$" == piece + rest;
      BodyStart(p[n..]);
      PieceParses(p, rest);
      BodyParses(p[n..]);
    }
  }

  /** The emitted text is always well formed, and every escape in it stands for the escaped character itself. */
  lemma TranslationParses(p: string)
    ensures ParseRegex("^" + Body(p) + "$") == Some([Begin] + Terms(p))
  {
    BodyParses(p);
    assert ("^" + Body(p) + "$")[1..] == Body(p) + "$";
  }

  lemma {:induction false} TermsMean(p: string, s: string, i: nat)
    requires i <= |s| && NoLineTerminators(s)
    ensures MatchesFrom(Terms(p), s, i) <==> GlobMatch(p, s[i..])
    decreases |p|
  {
    hide MatchesFrom, GlobMatch, Terms, SameRun;
    if |p| == 0 {
      NothingMeans(s, i);
    } else if p[0] == '*' {
      var n := FirstPiece(p).1;
      forall j | i <= j <= |s| ensures SameRun(p[n..], s, i, j) {
        TermsMean(p[n..], s, j);
        RunMeans(p[n..], s, i, j);
      }
      RunsMean(p, s, i, n);
    } else {
      if i < |s| { TermsMean(p[1..], s, i + 1); }
      OneMeans(p, s, i);
    }
  }

  lemma NothingMeans(s: string, i: nat)
    requires i <= |s|
    ensures MatchesFrom(Terms(""), s, i) <==> GlobMatch("", s[i..])
  {
    assert [End][1..] == [];
  }

  lemma RunMeans(rest: string, s: string, i: nat, j: nat)
    requires i <= j <= |s| && NoLineTerminators(s)
    requires MatchesFrom(Terms(rest), s, j) <==> GlobMatch(rest, s[j..])
    ensures SameRun(rest, s, i, j)
  {
    hide MatchesFrom, GlobMatch, Terms;
    assert s[i..][j - i..] == s[j..] && s[i..][..j - i] == s[i..j];
  }

  /** Both readings of a run from `i` to `j` agree, and so do both readings of what follows it. */
  predicate SameRun(rest: string, s: string, i: nat, j: nat)
    requires i <= j <= |s|
  {
    && (MatchesFrom(Terms(rest), s, j) <==> GlobMatch(rest, s[i..][j - i..]))
    && (AllIn(s[i..j], IsNot('/')) <==> SlashFree(s[i..][..j - i]))
    && AllIn(s[i..j], Dot)
  }

  lemma OneMeans(p: string, s: string, i: nat)
    requires i <= |s| && NoLineTerminators(s) && |p| > 0 && p[0] != '*'
    requires i < |s| ==> (MatchesFrom(Terms(p[1..]), s, i + 1) <==> GlobMatch(p[1..], s[i + 1..]))
    ensures MatchesFrom(Terms(p), s, i) <==> GlobMatch(p, s[i..])
  {
    assert Terms(p)[1..] == Terms(p[1..]);
    if i < |s| { assert s[i..][1..] == s[i + 1..]; }
  }

  /** The two existential statements about a `*` or `**` speak about the same runs. */
  lemma RunsMean(p: string, s: string, i: nat, n: nat)
    requires i <= |s| && |p| > 0 && p[0] == '*' && n == FirstPiece(p).1
    requires forall j :: i <= j <= |s| ==> SameRun(p[n..], s, i, j)
    ensures MatchesFrom(Terms(p), s, i) <==> GlobMatch(p, s[i..])
  {
    assert Terms(p)[1..] == Terms(p[n..]);
    ManyRuns(Terms(p), s, i);
    StarRuns(p, s[i..]);
    var a := FirstTerm(p).a;
    assert Terms(p)[0] == Many(a);
    hide MatchesFrom, GlobMatch, Terms;
    if MatchesFrom(Terms(p), s, i) {
      var j :| i <= j <= |s| && ManyUpTo(Terms(p), s, i, j);
      assert SameRun(p[n..], s, i, j);
      assert StarUpTo(p, s[i..], j - i);
    }
    if GlobMatch(p, s[i..]) {
      var k :| 0 <= k <= |s[i..]| && StarUpTo(p, s[i..], k);
      assert SameRun(p[n..], s, i, i + k);
      assert i + k - i == k;
      assert ManyUpTo(Terms(p), s, i, i + k);
    }
  }

  predicate ManyUpTo(ts: seq<Term>, s: string, i: nat, j: nat)
    requires i <= j <= |s| && |ts| > 0 && ts[0].Many?
  {
    AllIn(s[i..j], ts[0].a) && MatchesFrom(ts[1..], s, j)
  }

  lemma ManyRuns(ts: seq<Term>, s: string, i: nat)
    requires i <= |s| && |ts| > 0 && ts[0].Many?
    ensures MatchesFrom(ts, s, i) <==> exists j :: i <= j <= |s| && ManyUpTo(ts, s, i, j)
  {
    if MatchesFrom(ts, s, i) {
      var j :| i <= j <= |s| && AllIn(s[i..j], ts[0].a) && MatchesFrom(ts[1..], s, j);
      assert ManyUpTo(ts, s, i, j);
    }
  }

  predicate StarUpTo(p: string, s: string, k: nat)
    requires k <= |s| && |p| > 0 && p[0] == '*'
  {
    var n := FirstPiece(p).1;
    (n == 2 || SlashFree(s[..k])) && GlobMatch(p[n..], s[k..])
  }

  lemma StarRuns(p: string, s: string)
    requires |p| > 0 && p[0] == '*'
    ensures GlobMatch(p, s) <==> exists k :: 0 <= k <= |s| && StarUpTo(p, s, k)
  {
    var n := FirstPiece(p).1;
    if GlobMatch(p, s) {
      var k :| 0 <= k <= |s| && (n == 2 || SlashFree(s[..k])) && GlobMatch(p[n..], s[k..]);
      assert StarUpTo(p, s, k);
    }
    if exists k :: 0 <= k <= |s| && StarUpTo(p, s, k) {
      var k :| 0 <= k <= |s| && StarUpTo(p, s, k);
      assert GlobMatch(p[n..], s[k..]);
    }
  }

  /** The regular expression emitted for the pattern matches the path. */
  predicate Selects(p: string, s: string) { RegexMatch("^" + Body(p) + "$", s) }

  /** Regular expression and pattern agree about a path. */
  predicate Agree(p: string, s: string) {
    Selects(p, s) <==> GlobMatch(p, s)
  }

  /** For every pattern and every path without line terminators, the emitted regular expression
      matches exactly when the pattern does. */
  lemma TranslationPreservesMeaning(p: string, s: string)
    requires NoLineTerminators(s)
    ensures Agree(p, s)
  {
    TranslationParses(p);
    assert ([Begin] + Terms(p))[1..] == Terms(p);
    TermsMean(p, s, 0);
    assert s[0..] == s;
  }

  /** The paths on which all patterns mean what they say are exactly those without line terminators:
      `**` selects any path, its regular expression none with a line terminator. */
  lemma AgreementIffNoLineTerminators(s: string)
    ensures (forall p :: Agree(p, s)) <==> NoLineTerminators(s)
  {
    if NoLineTerminators(s) {
      forall p ensures Agree(p, s) {
        TranslationPreservesMeaning(p, s);
      }
    } else {
      StarsDisagree(s);
    }
  }

  lemma StarsDisagree(s: string)
    requires !NoLineTerminators(s)
    ensures !Agree("**", s)
  {
    var p := "**";
    assert p[2..] == "";
    assert s[|s|..] == "" && GlobMatch("", s[|s|..]);
    assert GlobMatch(p, s);
    TranslationParses(p);
    assert Terms(p) == [Many(Dot), End] by {
      assert FirstPiece(p).1 == 2 && Terms(p) == [Many(Dot)] + Terms("");
    }
    DotsStopAtLineTerminators(s);
    assert ([Begin] + Terms(p))[1..] == Terms(p);
    assert !MatchesFrom([Begin] + Terms(p), s, 0);
  }

  lemma DotsStopAtLineTerminators(s: string)
    requires !NoLineTerminators(s)
    ensures !MatchesFrom([Many(Dot), End], s, 0)
  {
    var ts := [Many(Dot), End];
    assert ts[1..] == [End];
    var bad :| 0 <= bad < |s| && LineTerminator(s[bad]);
    assert s[0..|s|][bad] == s[bad];
    forall j | 0 <= j <= |s| ensures !(AllIn(s[0..j], Dot) && MatchesFrom([End], s, j)) {
      if j == |s| { assert !AllIn(s[0..j], Dot); }
    }
  }

  // ---- Common patterns ----

  predicate NoWildcards(p: string) { '*' !in p && '?' !in p }

  lemma {:induction false} LiteralPrefix(d: string, p: string, s: string)
    requires NoWildcards(d)
    ensures GlobMatch(d + p, s) <==> d <= s && GlobMatch(p, s[|d|..])
    decreases |d|
  {
    if |d| == 0 {
      assert d + p == p;
      assert s[0..] == s;
    } else {
      assert (d + p)[0] == d[0] && (d + p)[1..] == d[1..] + p;
      if |s| > 0 && s[0] == d[0] {
        LiteralPrefix(d[1..], p, s[1..]);
        if d[1..] <= s[1..] {
          assert d == [d[0]] + d[1..] && s == [s[0]] + s[1..];
          assert s[1..][|d| - 1..] == s[|d|..];
        }
      }
    }
  }

  lemma LiteralOnly(d: string, s: string)
    requires NoWildcards(d)
    ensures GlobMatch(d, s) <==> s == d
  {
    LiteralPrefix(d, "", s);
    assert d + "" == d;
    if d <= s { assert s == d + s[|d|..]; }
  }

  /** `dir/` followed by `**` means the paths that start with `dir/`. */
  lemma WholeDirectoryMeans(d: string, s: string)
    requires NoWildcards(d)
    ensures GlobMatch(d + "/" + "**", s) <==> d + "/" <= s
  {
    LiteralPrefix(d + "/", "**", s);
    if d + "/" <= s {
      var rest := s[|d| + 1..];
      assert "**"[2..] == "";
      assert GlobMatch("", rest[|rest|..]);
    }
  }

  lemma OneStar(rest: string, s: string)
    requires |rest| > 0 ==> rest[0] != '*'
    ensures GlobMatch("*" + rest, s) <==> exists k :: 0 <= k <= |s| && SlashFree(s[..k]) && GlobMatch(rest, s[k..])
  {
    assert ("*" + rest)[1..] == rest;
  }

  lemma TwoStars(rest: string, s: string)
    ensures GlobMatch("**" + rest, s) <==> exists k :: 0 <= k <= |s| && GlobMatch(rest, s[k..])
  {
    assert ("**" + rest)[2..] == rest;
  }

  /** `s` consists of `head`, a slash-free name and `tail`. */
  predicate Consists(s: string, head: string, name: string, tail: string) {
    s == head + (name + tail) && SlashFree(name)
  }

  /** A star and a literal ending: a slash-free run and that ending. */
  lemma StarThenLiteral(ext: string, s: string)
    requires NoWildcards(ext)
    ensures GlobMatch("*" + ext, s) <==> exists name :: Consists(s, "", name, ext)
  {
    hide GlobMatch, Consists, SlashFree;
    OneStar(ext, s);
    if GlobMatch("*" + ext, s) {
      var k :| 0 <= k <= |s| && SlashFree(s[..k]) && GlobMatch(ext, s[k..]);
      NameOfCut(ext, s, k);
    }
    if exists name :: Consists(s, "", name, ext) {
      var name :| Consists(s, "", name, ext);
      CutOfName(ext, s, name);
    }
  }

  lemma NameOfCut(ext: string, s: string, k: nat)
    requires NoWildcards(ext) && k <= |s| && SlashFree(s[..k]) && GlobMatch(ext, s[k..])
    ensures Consists(s, "", s[..k], ext)
  {
    hide GlobMatch;
    LiteralOnly(ext, s[k..]);
    assert s == s[..k] + ext;
  }

  lemma CutOfName(ext: string, s: string, name: string)
    requires NoWildcards(ext) && Consists(s, "", name, ext)
    ensures |name| <= |s| && SlashFree(s[..|name|]) && GlobMatch(ext, s[|name|..])
  {
    hide GlobMatch;
    assert s[..|name|] == name && s[|name|..] == ext;
    LiteralOnly(ext, s[|name|..]);
  }

  /** `dir/` followed by `*.ext` means the files with that ending directly inside the directory. */
  lemma FilesInDirectoryMeans(d: string, ext: string, s: string)
    requires NoWildcards(d) && NoWildcards(ext)
    ensures GlobMatch(d + "/" + ("*" + ext), s) <==> exists name :: Consists(s, d + "/", name, ext)
  {
    hide GlobMatch;
    LiteralPrefix(d + "/", "*" + ext, s);
    if d + "/" <= s {
      StarThenLiteral(ext, s[|d| + 1..]);
      Behind(d + "/", ext, s);
    }
  }

  lemma Behind(head: string, tail: string, s: string)
    requires head <= s
    ensures (exists name :: Consists(s[|head|..], "", name, tail)) <==> (exists name :: Consists(s, head, name, tail))
  {
    forall name ensures Consists(s[|head|..], "", name, tail) <==> Consists(s, head, name, tail) {
      assert s == head + s[|head|..];
      assert "" + (name + tail) == name + tail;
    }
  }

  /** `**`, a slash and `*.ext` mean the files with that ending in subdirectories only. */
  lemma FilesBelowMeans(ext: string, s: string)
    requires NoWildcards(ext)
    ensures GlobMatch("**" + ("/*" + ext), s) <==> exists dir, name :: Consists(s, dir + "/", name, ext)
    ensures SlashFree(s) ==> !GlobMatch("**" + ("/*" + ext), s)
  {
    hide GlobMatch;
    assert "/*" + ext == "" + "/" + ("*" + ext);
    TwoStars("/*" + ext, s);
    if GlobMatch("**" + ("/*" + ext), s) {
      var k :| 0 <= k <= |s| && GlobMatch("/*" + ext, s[k..]);
      FilesInDirectoryMeans("", ext, s[k..]);
      var name :| Consists(s[k..], "" + "/", name, ext);
      assert s == s[..k] + s[k..] && s[k] == '/';
      assert Consists(s, s[..k] + "/", name, ext);
    }
    if exists dir, name :: Consists(s, dir + "/", name, ext) {
      var dir, name :| Consists(s, dir + "/", name, ext);
      var k := |dir|;
      assert Consists(s[k..], "" + "/", name, ext);
      FilesInDirectoryMeans("", ext, s[k..]);
    }
  }

  /** `dir/` followed by `**` selects exactly the paths that start with `dir/`. */
  lemma WholeDirectory(d: string, s: string)
    requires NoWildcards(d) && NoLineTerminators(s)
    ensures Selects(d + "/" + "**", s) <==> d + "/" <= s
  {
    hide GlobMatch, RegexMatch;
    TranslationPreservesMeaning(d + "/" + "**", s);
    WholeDirectoryMeans(d, s);
  }

  /** `dir/` followed by `*.ext` selects exactly the files with that ending directly inside the directory. */
  lemma FilesInDirectory(d: string, ext: string, s: string)
    requires NoWildcards(d) && NoWildcards(ext) && NoLineTerminators(s)
    ensures Selects(d + "/" + ("*" + ext), s) <==> exists name :: Consists(s, d + "/", name, ext)
  {
    hide GlobMatch, RegexMatch, Consists;
    TranslationPreservesMeaning(d + "/" + ("*" + ext), s);
    FilesInDirectoryMeans(d, ext, s);
  }

  /** `**`, a slash and `*.ext` select the files with that ending in subdirectories only: the path
      needs a slash, so files of the current directory itself are never selected. */
  lemma FilesBelow(ext: string, s: string)
    requires NoWildcards(ext) && NoLineTerminators(s)
    ensures Selects("**" + ("/*" + ext), s) <==> exists dir, name :: Consists(s, dir + "/", name, ext)
    ensures SlashFree(s) ==> !Selects("**" + ("/*" + ext), s)
  {
    hide GlobMatch, RegexMatch, Consists, SlashFree;
    TranslationPreservesMeaning("**" + ("/*" + ext), s);
    FilesBelowMeans(ext, s);
  }

  /** A question mark stands for any one character but a line feed or a carriage return. */
  lemma QuestionMark(c: char)
    ensures Selects("?", [c]) <==> c != '\n' && c != '\r'
  {
    TranslationParses("?");
    assert Terms("?") == [One(Dot), End] by { assert "?"[1..] == "" && Terms("") == [End]; }
    var ts, us, vs := [Begin] + Terms("?"), [One(Dot), End], [End];
    assert ts[1..] == us && us[1..] == vs && vs[1..] == [];
    assert MatchesFrom(vs, [c], 1);
    assert MatchesFrom(us, [c], 0) <==> In(c, Dot);
    assert MatchesFrom(ts, [c], 0) <==> MatchesFrom(us, [c], 0);
  }

  // ---- Selecting, staging and unstaging ----

  predicate SelectedBy(patterns: seq<string>, path: string) {
    exists i :: 0 <= i < |patterns| && Selects(patterns[i], path)
  }

  /** The paths of `paths` that some pattern selects. */
  function Selection(patterns: seq<string>, paths: set<string>): set<string> {
    set path | path in paths && SelectedBy(patterns, path)
  }

  /** On paths without line terminators a path is selected exactly when at least one pattern matches it. */
  lemma SelectionIsByMeaning(patterns: seq<string>, paths: set<string>, path: string)
    requires NoLineTerminators(path)
    ensures path in Selection(patterns, paths) <==>
            path in paths && exists i :: 0 <= i < |patterns| && GlobMatch(patterns[i], path)
  {
    forall i | 0 <= i < |patterns| ensures Agree(patterns[i], path) {
      TranslationPreservesMeaning(patterns[i], path);
    }
  }

  /** Paths are relative to the current directory. The regular expression constructor never throws. */
  method MatchFilePatternsToPaths(filePatterns: seq<string>, filePaths: set<string>) returns (matched: set<string>)
    ensures matched == Selection(filePatterns, filePaths)
  {
    matched := {};
    for i := 0 to |filePatterns|
      invariant matched == Selection(filePatterns[..i], filePaths)
    {
      ghost var before := matched;
      var text := FilePatternToRegex(filePatterns[i]);
      TranslationParses(filePatterns[i]);
      var regex := ParseRegex(text);
      var remaining := filePaths;
      while remaining != {}
        invariant remaining <= filePaths
        invariant matched == before + set path | path in filePaths - remaining && RegexMatch(text, path)
      {
        var path :| path in remaining;
        if MatchesFrom(regex.value, path, 0) {
          matched := matched + {path};
        }
        remaining := remaining - {path};
      }
      OneMorePattern(filePatterns, filePaths, i);
    }
    assert filePatterns[..|filePatterns|] == filePatterns;
  }

  lemma OneMorePattern(patterns: seq<string>, paths: set<string>, i: nat)
    requires i < |patterns|
    ensures Selection(patterns[..i + 1], paths) ==
            Selection(patterns[..i], paths) + set path | path in paths && Selects(patterns[i], path)
  {
    forall path
      ensures SelectedBy(patterns[..i + 1], path) <==>
              SelectedBy(patterns[..i], path) || Selects(patterns[i], path)
    {
      if SelectedBy(patterns[..i], path) {
        var j :| 0 <= j < i && Selects(patterns[..i][j], path);
        assert patterns[..i + 1][j] == patterns[..i][j];
      }
      if Selects(patterns[i], path) {
        assert patterns[..i + 1][i] == patterns[i];
      }
      if SelectedBy(patterns[..i + 1], path) {
        var j :| 0 <= j <= i && Selects(patterns[..i + 1][j], path);
        if j < i { assert patterns[..i][j] == patterns[..i + 1][j]; }
      }
    }
  }

  /** A directory is given two stars behind it. */
  function Normalize(pattern: string, isDirectory: string -> bool): string {
    if !isDirectory(pattern) then pattern
    else if |pattern| > 0 && pattern[|pattern| - 1] == '/' then pattern + "**"
    else pattern + "/" + "**"
  }

  function WithSlash(d: string): string {
    if |d| > 0 && d[|d| - 1] == '/' then d else d + "/"
  }

  /** A directory stands exactly for the paths that start with its name as it was given, and a slash. */
  lemma DirectoryIsPrefix(d: string, isDirectory: string -> bool, s: string)
    requires isDirectory(d) && NoWildcards(d) && NoLineTerminators(s)
    ensures Selects(Normalize(d, isDirectory), s) <==> WithSlash(d) <= s
  {
    var w := WithSlash(d);
    var head := w[..|w| - 1];
    assert w == head + "/" && Normalize(d, isDirectory) == head + "/" + "**";
    hide Selects;
    WholeDirectory(head, s);
  }

  /** So the current directory, or a directory named from it, selects nothing: no relative path starts with a dot
      and a slash. */
  lemma DotSelectsNothing(d: string, isDirectory: string -> bool, s: string)
    requires isDirectory(d) && NoWildcards(d) && NoLineTerminators(s)
    requires "./" <= WithSlash(d) && !("./" <= s)
    ensures !Selects(Normalize(d, isDirectory), s)
  {
    hide Selects, Normalize;
    DirectoryIsPrefix(d, isDirectory, s);
  }

  /** Any other pattern selects exactly what it matches. */
  lemma PlainPatternIsGlob(p: string, isDirectory: string -> bool, s: string)
    requires !isDirectory(p) && NoLineTerminators(s)
    ensures Selects(Normalize(p, isDirectory), s) <==> GlobMatch(p, s)
  {
    hide GlobMatch, Selects;
    TranslationPreservesMeaning(p, s);
  }

  /** What a pattern given by the user means: a directory, everything that starts with its name and a slash. */
  ghost predicate Wanted(p: string, isDirectory: string -> bool, s: string) {
    if !isDirectory(p) then GlobMatch(p, s)
    else if NoWildcards(p) then WithSlash(p) <= s
    else GlobMatch(WithSlash(p) + "**", s)
  }

  lemma SelectsIfWanted(p: string, isDirectory: string -> bool, s: string)
    requires NoLineTerminators(s)
    ensures Selects(Normalize(p, isDirectory), s) <==> Wanted(p, isDirectory, s)
  {
    hide GlobMatch, Selects;
    if !isDirectory(p) {
      PlainPatternIsGlob(p, isDirectory, s);
    } else if NoWildcards(p) {
      DirectoryIsPrefix(p, isDirectory, s);
    } else {
      assert Normalize(p, isDirectory) == WithSlash(p) + "**";
      TranslationPreservesMeaning(Normalize(p, isDirectory), s);
    }
  }

  ghost predicate WantedBySome(patterns: seq<string>, isDirectory: string -> bool, s: string) {
    exists i :: 0 <= i < |patterns| && Wanted(patterns[i], isDirectory, s)
  }

  /** The given patterns select, among paths without line terminators, what some of them wants. */
  lemma SelectionIsWanted(patterns: seq<string>, isDirectory: string -> bool, paths: set<string>)
    ensures forall s :: NoLineTerminators(s) ==>
              (s in Selection(NormalizeAll(patterns, isDirectory), paths)
               <==> s in paths && WantedBySome(patterns, isDirectory, s))
  {
    hide Normalize, Wanted, Selects, NoLineTerminators;
    forall s | NoLineTerminators(s)
      ensures SelectedBy(NormalizeAll(patterns, isDirectory), s) <==> WantedBySome(patterns, isDirectory, s)
    {
      forall i | 0 <= i < |patterns|
        ensures Selects(NormalizeAll(patterns, isDirectory)[i], s) <==> Wanted(patterns[i], isDirectory, s)
      {
        SelectsIfWanted(patterns[i], isDirectory, s);
      }
      if SelectedBy(NormalizeAll(patterns, isDirectory), s) {
        var i :| 0 <= i < |patterns| && Selects(NormalizeAll(patterns, isDirectory)[i], s);
        assert Wanted(patterns[i], isDirectory, s);
      }
      if WantedBySome(patterns, isDirectory, s) {
        var i :| 0 <= i < |patterns| && Wanted(patterns[i], isDirectory, s);
        assert Selects(NormalizeAll(patterns, isDirectory)[i], s);
      }
    }
  }

  function NormalizeAll(patterns: seq<string>, isDirectory: string -> bool): seq<string> {
    seq(|patterns|, i requires 0 <= i < |patterns| => Normalize(patterns[i], isDirectory))
  }

  /** The staged files, as kept between invocations. */
  class StagingArea {
    var staged: set<string>

    constructor ()
      ensures staged == {}
    {
      staged := {};
    }

    /** Stages the selected files of the directory; `added` are those that were not staged before. */
    method Stage(filePatterns: seq<string>, filesInCwd: set<string>,
                 isDirectory: string -> bool) returns (added: set<string>)
      modifies this
      ensures staged == old(staged) + Selection(NormalizeAll(filePatterns, isDirectory), filesInCwd)
      ensures added == staged - old(staged)
      ensures forall s :: NoLineTerminators(s) ==>
                (s in staged <==>
                 s in old(staged) || (s in filesInCwd && WantedBySome(filePatterns, isDirectory, s)))
    {
      hide Selection, NormalizeAll, WantedBySome, NoLineTerminators;
      SelectionIsWanted(filePatterns, isDirectory, filesInCwd);
      var loaded := staged;
      var normalized := NormalizeAll(filePatterns, isDirectory);
      var filesToStage := MatchFilePatternsToPaths(normalized, filesInCwd);
      ghost var selection := filesToStage;
      if filesToStage == {} {
        return {};
      }
      var pending := filesToStage;
      while pending != {}
        invariant pending <= filesToStage <= selection
        invariant loaded == old(staged) + (selection - pending)
        invariant filesToStage == pending + (selection - pending - old(staged))
      {
        var file :| file in pending;
        pending := pending - {file};
        if file in loaded {
          filesToStage := filesToStage - {file};
        } else {
          loaded := loaded + {file};
        }
      }
      added := filesToStage;
      if filesToStage == {} {
        assert staged == loaded;
        return;
      }
      staged := loaded;
    }

    /** Removes the selected files among the staged ones. */
    method Unstage(filePatterns: seq<string>, isDirectory: string -> bool)
      modifies this
      ensures staged == old(staged) - Selection(NormalizeAll(filePatterns, isDirectory), old(staged))
      ensures forall s :: NoLineTerminators(s) ==>
                (s in staged <==> s in old(staged) && !WantedBySome(filePatterns, isDirectory, s))
    {
      hide Selection, NormalizeAll, WantedBySome, NoLineTerminators;
      SelectionIsWanted(filePatterns, isDirectory, staged);
      var normalized := NormalizeAll(filePatterns, isDirectory);
      var filesToUnstage := MatchFilePatternsToPaths(normalized, staged);
      if filesToUnstage == {} {
        return;
      }
      var loaded := staged;
      var pending := filesToUnstage;
      while pending != {}
        invariant pending <= filesToUnstage
        invariant loaded == old(staged) - (filesToUnstage - pending)
      {
        var file :| file in pending;
        loaded := loaded - {file};
        pending := pending - {file};
      }
      staged := loaded;
    }
  }

  /** Adding files and dropping them again with the same patterns leaves nothing that the patterns select, and the
      staging area is as before if and only if they selected nothing that was staged before. */
  method AddThenDrop(area: StagingArea, filePatterns: seq<string>, filesInCwd: set<string>, isDirectory: string -> bool)
    modifies area
    ensures area.staged == old(area.staged) - Selection(NormalizeAll(filePatterns, isDirectory), old(area.staged))
    ensures area.staged == old(area.staged) <==>
            forall path :: path in old(area.staged) ==> !SelectedBy(NormalizeAll(filePatterns, isDirectory), path)
  {
    hide SelectedBy, NormalizeAll;
    ghost var before := area.staged;
    var added := area.Stage(filePatterns, filesInCwd, isDirectory);
    area.Unstage(filePatterns, isDirectory);
    DropUndoesAdd(NormalizeAll(filePatterns, isDirectory), before, filesInCwd);
  }

  /** Dropping with the patterns files were added by leaves nothing they select, and everything else untouched. */
  lemma DropUndoesAdd(patterns: seq<string>, staged: set<string>, filesInCwd: set<string>)
    ensures var afterAdd := staged + Selection(patterns, filesInCwd);
            var afterDrop := afterAdd - Selection(patterns, afterAdd);
            && afterDrop == staged - Selection(patterns, staged)
            && (afterDrop == staged <==> forall path :: path in staged ==> !SelectedBy(patterns, path))
  {
    var afterAdd := staged + Selection(patterns, filesInCwd);
    var afterDrop := afterAdd - Selection(patterns, afterAdd);
    assert afterDrop == staged - Selection(patterns, staged);
    if exists path :: path in staged && SelectedBy(patterns, path) {
      var path :| path in staged && SelectedBy(patterns, path);
      assert path in staged && path !in afterDrop;
    }
  }
}
