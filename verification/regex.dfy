/** The fragment of ECMAScript regular expressions (section 22.2 of ECMA-262)
    that the rule tables use: literal characters, `.`, bracketed character
    sets of plain characters, and the quantifiers `*` and `?` (optionally
    followed by the lazy marker `?`). `RegExp.prototype.test` is an unanchored
    search for a match anywhere in the subject string. */
module Regex {
  import opened Wrappers
  import opened Strings

  /** What one pattern position accepts. `Dot` is `.`, which (without the
      `s` flag) accepts every character except a line terminator. */
  datatype CharClass = Dot | Exactly(c: char) | OneOf(chars: seq<char>)

  datatype Quantifier = One | Opt | Star

  datatype Term = Term(cls: CharClass, q: Quantifier)

  /** The result of `new RegExp(p)`: a compiled pattern, the `SyntaxError` it
      throws, or a pattern that uses syntax outside the modelled fragment. */
  datatype Compiled = Ok(terms: seq<Term>) | SyntaxError | Unsupported

  /** Characters with a meaning the modelled fragment does not cover. */
  predicate Outside(c: char)
  {
    c == '^' || c == '$' || c == '\\' || c == '+' || c == '(' || c == ')' || c == '{' || c == '}' || c == '|'
  }

  predicate IsLineTerminator(c: char)
  {
    c == '\n' || c == '\r' || c == '\U{2028}' || c == '\U{2029}'
  }

  predicate Accepts(cls: CharClass, c: char)
  {
    match cls
    case Dot => !IsLineTerminator(c)
    case Exactly(d) => c == d
    case OneOf(cs) => c in cs
  }

  /** Scanning the inside of a bracketed set, after its `[`. */
  datatype ClassScan = Closed(chars: seq<char>, rest: string) | Unterminated | ClassOutside

  function ScanClass(p: string): (r: ClassScan)
    ensures r.Closed? ==> |r.rest| < |p|
  {
    if p == [] then Unterminated
    else if p[0] == ']' then Closed([], p[1..])
    else if p[0] == '\\' || p[0] == '-' then ClassOutside
    else
      match ScanClass(p[1..])
      case Closed(cs, rest) => Closed([p[0]] + cs, rest)
      case other => other
  }

  /** Reads the quantifier (and lazy marker) at the start of `p`. */
  function ScanQuantifier(p: string): (r: (Quantifier, string))
    ensures |r.1| <= |p|
  {
    if p != [] && (p[0] == '*' || p[0] == '?') then
      var q := if p[0] == '*' then Star else Opt;
      var rest := p[1..];
      if rest != [] && rest[0] == '?' then (q, rest[1..]) else (q, rest)
    else (One, p)
  }

  /** `new RegExp(p)` for the fragment. A quantifier where an atom is expected
      ("nothing to repeat") and an unterminated `[` are syntax errors. */
  function Compile(p: string): (r: Compiled)
    ensures r.Ok? ==> |r.terms| <= |p| && (r.terms == [] <==> p == [])
    decreases |p|, 0
  {
    if p == [] then Ok([])
    else if p[0] == '*' || p[0] == '?' then SyntaxError
    else if Outside(p[0]) then Unsupported
    else if p[0] == '[' then
      if |p| > 1 && p[1] == '^' then Unsupported
      else
        match ScanClass(p[1..])
        case Unterminated => SyntaxError
        case ClassOutside => Unsupported
        case Closed(cs, rest) => CompileTerm(OneOf(cs), rest)
    else if p[0] == '.' then CompileTerm(Dot, p[1..])
    else CompileTerm(Exactly(p[0]), p[1..])
  }

  /** Completes the term whose atom is `cls` with the quantifier at the start
      of `rest`, then compiles the remainder. */
  function CompileTerm(cls: CharClass, rest: string): (r: Compiled)
    ensures r.Ok? ==> 1 <= |r.terms| <= |rest| + 1 && r.terms[0].cls == cls
    decreases |rest|, 1
  {
    var (q, rest') := ScanQuantifier(rest);
    Prepend([Term(cls, q)], Compile(rest'))
  }

  /** Puts `ts` in front of the terms of a successful compilation. */
  function Prepend(ts: seq<Term>, c: Compiled): (r: Compiled)
    ensures r.Ok? <==> c.Ok?
    ensures r.Ok? ==> r.terms == ts + c.terms
    ensures !r.Ok? ==> r == c
  {
    match c
    case Ok(us) => Ok(ts + us)
    case err => err
  }

  /** The pattern uses no syntax outside the modelled fragment. */
  predicate InFragment(p: string)
  {
    forall k :: 0 <= k < |p| ==> !Outside(p[k]) && p[k] != '-'
  }

  /** A pattern inside the fragment either compiles or throws a syntax error. */
  lemma {:induction false} InFragmentIsModelled(p: string)
    requires InFragment(p)
    ensures !Compile(p).Unsupported?
    decreases |p|, 0
  {
    if p != [] && p[0] !in "*?" {
      assert InFragment(p[1..]);
      if p[0] == '[' {
        ScanClassInFragment(p[1..]);
        ScanClassSuffix(p[1..]);
        match ScanClass(p[1..])
        case Closed(cs, rest) =>
          assert InFragment(rest) by {
            assert rest == p[1..][|p[1..]| - |rest|..];
          }
          CompileTermModelled(OneOf(cs), rest);
        case _ =>
      } else {
        CompileTermModelled(if p[0] == '.' then Dot else Exactly(p[0]), p[1..]);
      }
    }
  }

  lemma {:induction false} CompileTermModelled(cls: CharClass, rest: string)
    requires InFragment(rest)
    ensures !CompileTerm(cls, rest).Unsupported?
    decreases |rest|, 1
  {
    var (q, rest') := ScanQuantifier(rest);
    assert rest' == rest[|rest| - |rest'|..];
    assert InFragment(rest');
    InFragmentIsModelled(rest');
  }

  lemma {:induction false} ScanClassInFragment(p: string)
    requires InFragment(p)
    ensures !ScanClass(p).ClassOutside?
  {
    if p != [] && p[0] != ']' {
      assert InFragment(p[1..]);
      ScanClassInFragment(p[1..]);
    }
  }

  lemma {:induction false} ScanClassSuffix(p: string)
    ensures ScanClass(p).Closed? ==> ScanClass(p).rest == p[|p| - |ScanClass(p).rest|..]
  {
    if p != [] && p[0] != ']' && p[0] != '\\' && p[0] != '-' {
      ScanClassSuffix(p[1..]);
    }
  }

  /** The terms `ts` match a prefix of `s`. A regular-expression test
      succeeds when some way of consuming characters exists, so greedy and
      lazy quantifiers agree here. */
  predicate MatchPrefix(ts: seq<Term>, s: string)
    decreases |ts|, |s|
  {
    if ts == [] then true
    else
      var t := ts[0];
      var step := |s| > 0 && Accepts(t.cls, s[0]);
      match t.q
      case One => step && MatchPrefix(ts[1..], s[1..])
      case Opt => MatchPrefix(ts[1..], s) || (step && MatchPrefix(ts[1..], s[1..]))
      case Star => MatchPrefix(ts[1..], s) || (step && MatchPrefix(ts, s[1..]))
  }

  /** The unanchored search performed by `test`: is there a start position
      from which the terms match? */
  function Search(ts: seq<Term>, s: string): (r: bool)
    ensures r <==> exists i :: 0 <= i <= |s| && MatchPrefix(ts, s[i..])
    decreases |s|
  {
    if MatchPrefix(ts, s) then
      assert s[0..] == s;
      true
    else if |s| == 0 then false
    else
      var r := Search(ts, s[1..]);
      assert forall i :: 1 <= i <= |s| ==> s[i..] == s[1..][i - 1..];
      assert forall i :: 0 <= i <= |s| - 1 ==> s[1..][i..] == s[i + 1..];
      r
  }

  /** `new RegExp(p).test(s)`: throws when the pattern does not compile. */
  function Test(p: string, s: string): (r: Try<bool>)
    ensures r.Threw? <==> Compile(p).SyntaxError?
    ensures r.Unmodelled? <==> Compile(p).Unsupported?
    ensures r.Returned? ==> Compile(p).Ok?
    ensures r.Returned? ==>
      (r.value <==> exists i :: 0 <= i <= |s| && MatchPrefix(Compile(p).terms, s[i..]))
  {
    match Compile(p)
    case Ok(ts) => Returned(Search(ts, s))
    case SyntaxError => Threw
    case Unsupported => Unmodelled
  }

  /** Term `t` consumes exactly one character, and only `c`. */
  predicate Forces(t: Term, c: char)
  {
    t.q == One && (t.cls == Exactly(c) || t.cls == OneOf([c]))
  }

  /** The terms `ts` spell out the literal word `w`. */
  predicate RunOf(ts: seq<Term>, w: string)
  {
    |ts| == |w| && forall i :: 0 <= i < |ts| ==> Forces(ts[i], w[i])
  }

  /** Every term may match the empty string. */
  predicate Nullable(ts: seq<Term>)
  {
    forall i :: 0 <= i < |ts| ==> ts[i].q != One
  }

  lemma {:induction false} NullableMatchesAnything(ts: seq<Term>, s: string)
    requires Nullable(ts)
    ensures MatchPrefix(ts, s)
    decreases |ts|
  {
    if ts != [] {
      NullableMatchesAnything(ts[1..], s);
    }
  }

  /** A literal run followed by `post` matches a prefix of `s` exactly when
      `s` starts with the run's word and `post` matches what follows. */
  lemma {:induction false} RunPrefix(run: seq<Term>, w: string, post: seq<Term>, s: string)
    requires RunOf(run, w)
    ensures MatchPrefix(run + post, s) <==> StartsWith(s, w) && MatchPrefix(post, s[|w|..])
    decreases |run|
  {
    if run == [] {
      assert run + post == post;
    } else {
      assert (run + post)[1..] == run[1..] + post;
      RunPrefix(run[1..], w[1..], post, if |s| > 0 then s[1..] else s);
      if 0 < |s| && |w| <= |s| {
        assert s[1..][|w| - 1..] == s[|w|..];
        if StartsWith(s, w) {
          assert s[1..][..|w| - 1] == s[..|w|][1..];
        }
      }
    }
  }

  /** Whatever else the pattern holds, a literal run it contains must occur
      in every string it finds a match in. */
  lemma {:induction false} RunIsRequired(pre: seq<Term>, run: seq<Term>, w: string, post: seq<Term>, s: string)
    requires RunOf(run, w)
    requires MatchPrefix(pre + run + post, s)
    ensures Includes(s, w)
    decreases |pre|, |s|
  {
    var ts := pre + run + post;
    if pre == [] {
      assert ts == run + post;
      RunPrefix(run, w, post, s);
      assert OccursAt(s, w, 0);
    } else {
      assert ts[1..] == pre[1..] + run + post;
      var step := |s| > 0 && Accepts(pre[0].cls, s[0]);
      match pre[0].q
      case One =>
        RunIsRequired(pre[1..], run, w, post, s[1..]);
        IncludesTail(s, w);
      case Opt =>
        if MatchPrefix(pre[1..] + run + post, s) {
          RunIsRequired(pre[1..], run, w, post, s);
        } else {
          RunIsRequired(pre[1..], run, w, post, s[1..]);
          IncludesTail(s, w);
        }
      case Star =>
        if MatchPrefix(pre[1..] + run + post, s) {
          RunIsRequired(pre[1..], run, w, post, s);
        } else {
          RunIsRequired(pre, run, w, post, s[1..]);
          IncludesTail(s, w);
        }
    }
  }

  /** A pattern that is a literal run followed by optional terms finds a
      match exactly in the strings that contain the run's word. */
  lemma {:induction false} SearchRun(run: seq<Term>, w: string, post: seq<Term>, s: string)
    requires RunOf(run, w)
    requires Nullable(post)
    ensures Search(run + post, s) <==> Includes(s, w)
  {
    if Search(run + post, s) {
      var i :| 0 <= i <= |s| && MatchPrefix(run + post, s[i..]);
      assert [] + run + post == run + post;
      RunIsRequired([], run, w, post, s[i..]);
      var j :| OccursAt(s[i..], w, j);
      assert s[i..][j..j + |w|] == s[i + j..i + j + |w|];
      assert OccursAt(s, w, i + j);
    }
    if Includes(s, w) {
      var i :| OccursAt(s, w, i);
      assert s[i..][..|w|] == s[i..i + |w|];
      NullableMatchesAnything(post, s[i..][|w|..]);
      RunPrefix(run, w, post, s[i..]);
    }
  }

  /** Writes compiled terms back as pattern text: the inverse of `Compile`. */
  function Render(ts: seq<Term>): string
  {
    if ts == [] then ""
    else RenderAtom(ts[0].cls) + RenderQuantifier(ts[0].q) + Render(ts[1..])
  }

  function RenderAtom(cls: CharClass): string
  {
    match cls
    case Dot => "."
    case Exactly(c) => [c]
    case OneOf(cs) => "[" + cs + "]"
  }

  function RenderQuantifier(q: Quantifier): string
  {
    match q
    case One => ""
    case Opt => "?"
    case Star => "*"
  }

  /** A character that stands for itself in a pattern. */
  predicate PlainChar(c: char)
  {
    c != '*' && c != '?' && c != '[' && c != '.' && !Outside(c)
  }

  /** A character that stands for itself inside a bracketed set. */
  predicate PlainClassChar(c: char)
  {
    c != ']' && c != '\\' && c != '-'
  }

  /** Terms that `Render` writes in the fragment's syntax. */
  predicate Renderable(ts: seq<Term>)
  {
    forall i :: 0 <= i < |ts| ==> RenderableClass(ts[i].cls)
  }

  lemma {:induction false} RenderConcat(ts: seq<Term>, us: seq<Term>)
    ensures Render(ts + us) == Render(ts) + Render(us)
    decreases |ts|
  {
    if ts == [] {
      assert ts + us == us;
    } else {
      assert (ts + us)[1..] == ts[1..] + us;
      RenderConcat(ts[1..], us);
    }
  }

  lemma {:induction false} ScanClassRendered(cs: seq<char>, rest: string)
    requires forall k :: 0 <= k < |cs| ==> PlainClassChar(cs[k])
    ensures ScanClass(cs + "]" + rest) == Closed(cs, rest)
    decreases |cs|
  {
    if cs == [] {
      assert cs + "]" + rest == "]" + rest;
    } else {
      assert (cs + "]" + rest)[1..] == cs[1..] + "]" + rest;
      ScanClassRendered(cs[1..], rest);
    }
  }

  predicate RenderableClass(cls: CharClass)
  {
    match cls
    case Dot => true
    case Exactly(c) => PlainChar(c)
    case OneOf(cs) =>
      (|cs| == 0 || cs[0] != '^') && forall k :: 0 <= k < |cs| ==> PlainClassChar(cs[k])
  }

  lemma QuantifierStep(q: Quantifier, r: string)
    requires r == [] || (r[0] != '*' && r[0] != '?')
    ensures ScanQuantifier(RenderQuantifier(q) + r) == (q, r)
  {
    var s := RenderQuantifier(q) + r;
    if q == One { assert s == r; }
    else { assert s[0] == RenderQuantifier(q)[0] && s[1..] == r; }
  }

  lemma AtomStep(cls: CharClass, rest: string)
    requires RenderableClass(cls)
    ensures Compile(RenderAtom(cls) + rest) == CompileTerm(cls, rest)
  {
    if cls.OneOf? {
      ClassAtomStep(cls.chars, rest);
    } else {
      var p := RenderAtom(cls) + rest;
      assert p[0] == RenderAtom(cls)[0] && p[1..] == rest;
    }
  }

  lemma ClassAtomStep(cs: seq<char>, rest: string)
    requires RenderableClass(OneOf(cs))
    ensures Compile("[" + cs + "]" + rest) == CompileTerm(OneOf(cs), rest)
  {
    var p := "[" + cs + "]" + rest;
    assert p[0] == '[' && p[1..] == cs + "]" + rest;
    ScanClassRendered(cs, rest);
  }

  /** Compiling rendered terms gives the terms back. */
  lemma {:induction false} CompileRender(ts: seq<Term>)
    requires Renderable(ts)
    ensures Compile(Render(ts)) == Ok(ts)
    decreases |ts|
  {
    if ts != [] {
      var t, r := ts[0], Render(ts[1..]);
      assert Renderable(ts[1..]) && RenderableClass(t.cls) by {
        assert forall i :: 0 <= i < |ts| - 1 ==> ts[1..][i] == ts[i + 1];
      }
      CompileRender(ts[1..]);
      assert r == [] || (r[0] != '*' && r[0] != '?') by {
        if r != [] { RenderStartsWithAtom(ts[1..]); }
      }
      CompileStep(t, r);
      assert Render(ts) == RenderAtom(t.cls) + RenderQuantifier(t.q) + r;
      assert [t] + ts[1..] == ts;
    }
  }

  /** Rendered terms never start with a quantifier. */
  lemma RenderStartsWithAtom(ts: seq<Term>)
    requires ts != [] && RenderableClass(ts[0].cls)
    ensures Render(ts)[0] != '*' && Render(ts)[0] != '?'
  {
    var a := RenderAtom(ts[0].cls);
    assert Render(ts) == a + (RenderQuantifier(ts[0].q) + Render(ts[1..]));
    assert Render(ts)[0] == a[0];
  }

  /** One term of rendered text compiles back to that term. */
  lemma CompileStep(t: Term, r: string)
    requires RenderableClass(t.cls)
    requires r == [] || (r[0] != '*' && r[0] != '?')
    ensures Compile(RenderAtom(t.cls) + RenderQuantifier(t.q) + r) == Prepend([t], Compile(r))
  {
    var q := RenderQuantifier(t.q);
    assert RenderAtom(t.cls) + q + r == RenderAtom(t.cls) + (q + r);
    AtomStep(t.cls, q + r);
    QuantifierStep(t.q, r);
  }

  /** The terms of a pattern made of plain characters only. */
  function Lits(w: string): (ts: seq<Term>)
    ensures |ts| == |w|
    ensures forall i :: 0 <= i < |w| ==> ts[i] == Term(Exactly(w[i]), One)
  {
    seq(|w|, i requires 0 <= i < |w| => Term(Exactly(w[i]), One))
  }

  lemma {:induction false} RenderLits(w: string)
    ensures Render(Lits(w)) == w
    decreases |w|
  {
    if w != [] {
      assert Lits(w)[1..] == Lits(w[1..]);
      RenderLits(w[1..]);
    }
  }

  lemma LitsRun(w: string)
    ensures RunOf(Lits(w), w)
  {
  }

  lemma RunConcat(ts: seq<Term>, w: string, us: seq<Term>, v: string)
    requires RunOf(ts, w) && RunOf(us, v)
    ensures RunOf(ts + us, w + v)
  {
  }

  lemma LitsRenderable(w: string)
    requires forall k :: 0 <= k < |w| ==> PlainChar(w[k])
    ensures Renderable(Lits(w))
  {
  }

  lemma RenderableConcat(ts: seq<Term>, us: seq<Term>)
    requires Renderable(ts) && Renderable(us)
    ensures Renderable(ts + us)
  {
  }

  /** Patterns as written in the rule tables are built from a few kinds of
      pieces: a plain word, a one-line bracketed set such as `[.]`, `.*`, a
      lone `.`, and an optional character such as `h?`. */
  datatype Piece = Word(w: string) | Class(cs: seq<char>) | AnyStar | AnyOne | Maybe(c: char)

  function PieceText(p: Piece): string
  {
    match p
    case Word(w) => w
    case Class(cs) => "[" + cs + "]"
    case AnyStar => ".*"
    case AnyOne => "."
    case Maybe(c) => [c, '?']
  }

  function PieceTerms(p: Piece): seq<Term>
  {
    match p
    case Word(w) => Lits(w)
    case Class(cs) => [Term(OneOf(cs), One)]
    case AnyStar => [Term(Dot, Star)]
    case AnyOne => [Term(Dot, One)]
    case Maybe(c) => [Term(Exactly(c), Opt)]
  }

  predicate PieceOk(p: Piece)
  {
    match p
    case Word(w) => forall k :: 0 <= k < |w| ==> PlainChar(w[k])
    case Class(cs) => (|cs| == 0 || cs[0] != '^') && forall k :: 0 <= k < |cs| ==> PlainClassChar(cs[k])
    case AnyStar => true
    case AnyOne => true
    case Maybe(c) => PlainChar(c)
  }

  /** The text of a pattern built from pieces. */
  function Text(ps: seq<Piece>): string
  {
    if ps == [] then [] else PieceText(ps[0]) + Text(ps[1..])
  }

  /** The terms a pattern built from pieces compiles to. */
  function Terms(ps: seq<Piece>): seq<Term>
  {
    if ps == [] then [] else PieceTerms(ps[0]) + Terms(ps[1..])
  }

  predicate PiecesOk(ps: seq<Piece>)
  {
    ps == [] || (PieceOk(ps[0]) && PiecesOk(ps[1..]))
  }

  lemma {:induction false} PiecesRender(ps: seq<Piece>)
    requires PiecesOk(ps)
    ensures Renderable(Terms(ps)) && Render(Terms(ps)) == Text(ps)
    decreases |ps|
  {
    if ps != [] {
      PiecesRender(ps[1..]);
      var t := PieceTerms(ps[0]);
      assert Renderable(t) && Render(t) == PieceText(ps[0]) by {
        match ps[0]
        case Word(w) => LitsRenderable(w); RenderLits(w);
        case _ =>
      }
      RenderableConcat(t, Terms(ps[1..]));
      RenderConcat(t, Terms(ps[1..]));
    }
  }

  /** A pattern built from well-formed pieces compiles to their terms. */
  lemma PiecesCompile(ps: seq<Piece>)
    requires PiecesOk(ps)
    ensures Compile(Text(ps)) == Ok(Terms(ps))
  {
    PiecesRender(ps);
    CompileRender(Terms(ps));
  }

  lemma {:induction false} TermsConcat(ps: seq<Piece>, qs: seq<Piece>)
    ensures Terms(ps + qs) == Terms(ps) + Terms(qs)
    decreases |ps|
  {
    if ps == [] {
      assert ps + qs == qs;
    } else {
      assert (ps + qs)[1..] == ps[1..] + qs;
      TermsConcat(ps[1..], qs);
    }
  }

  /** Pieces that each consume exactly one fixed character per position. */
  predicate LiteralPieces(ps: seq<Piece>)
  {
    ps == [] || ((ps[0].Word? || (ps[0].Class? && |ps[0].cs| == 1)) && LiteralPieces(ps[1..]))
  }

  /** The word literal pieces spell. */
  function Spell(ps: seq<Piece>): string
    requires LiteralPieces(ps)
  {
    if ps == [] then []
    else (if ps[0].Word? then ps[0].w else ps[0].cs) + Spell(ps[1..])
  }

  lemma {:induction false} LiteralPiecesRun(ps: seq<Piece>)
    requires LiteralPieces(ps)
    ensures RunOf(Terms(ps), Spell(ps))
    decreases |ps|
  {
    if ps != [] {
      LiteralPiecesRun(ps[1..]);
      var w := if ps[0].Word? then ps[0].w else ps[0].cs;
      assert RunOf(PieceTerms(ps[0]), w) by {
        if ps[0].Word? { LitsRun(w); }
        else { assert ps[0].cs == [w[0]]; }
      }
      RunConcat(PieceTerms(ps[0]), w, Terms(ps[1..]), Spell(ps[1..]));
    }
  }

  /** A match of any pattern that contains a literal run lies over an
      occurrence of the run's word. */
  lemma SearchRequiresRun(pre: seq<Term>, run: seq<Term>, w: string, post: seq<Term>, s: string)
    requires RunOf(run, w)
    requires Search(pre + run + post, s)
    ensures Includes(s, w)
  {
    var i :| 0 <= i <= |s| && MatchPrefix(pre + run + post, s[i..]);
    RunIsRequired(pre, run, w, post, s[i..]);
    var j :| OccursAt(s[i..], w, j);
    assert s[i..][j..j + |w|] == s[i + j..i + j + |w|];
    assert OccursAt(s, w, i + j);
  }

  lemma {:induction false} PiecesOkConcat(ps: seq<Piece>, qs: seq<Piece>)
    requires PiecesOk(ps) && PiecesOk(qs)
    ensures PiecesOk(ps + qs)
    decreases |ps|
  {
    if ps == [] {
      assert ps + qs == qs;
    } else {
      assert (ps + qs)[1..] == ps[1..] + qs;
      PiecesOkConcat(ps[1..], qs);
    }
  }

  /** A pattern that spells a literal word, alone or followed by `.*`, finds
      a match exactly in the strings that contain the word. */
  lemma LiteralTest(ps: seq<Piece>, s: string)
    requires PiecesOk(ps) && LiteralPieces(ps)
    ensures Test(Text(ps), s) == Returned(Includes(s, Spell(ps)))
    ensures Test(Text(ps + [AnyStar]), s) == Returned(Includes(s, Spell(ps)))
  {
    PiecesCompile(ps);
    LiteralPiecesRun(ps);
    assert Terms(ps) + [] == Terms(ps);
    SearchRun(Terms(ps), Spell(ps), [], s);
    PiecesOkConcat(ps, [AnyStar]);
    PiecesCompile(ps + [AnyStar]);
    TermsConcat(ps, [AnyStar]);
    assert Terms([AnyStar]) == [Term(Dot, Star)];
    SearchRun(Terms(ps), Spell(ps), [Term(Dot, Star)], s);
  }

  lemma {:induction false} TextConcat(ps: seq<Piece>, qs: seq<Piece>)
    ensures Text(ps + qs) == Text(ps) + Text(qs)
    decreases |ps|
  {
    if ps == [] {
      assert ps + qs == qs;
    } else {
      assert (ps + qs)[1..] == ps[1..] + qs;
      TextConcat(ps[1..], qs);
    }
  }

  lemma {:induction false} SpellConcat(ps: seq<Piece>, qs: seq<Piece>)
    requires LiteralPieces(ps) && LiteralPieces(qs)
    ensures LiteralPieces(ps + qs)
    ensures Spell(ps + qs) == Spell(ps) + Spell(qs)
    decreases |ps|
  {
    if ps == [] {
      assert ps + qs == qs;
    } else {
      assert (ps + qs)[1..] == ps[1..] + qs;
      SpellConcat(ps[1..], qs);
    }
  }
}
