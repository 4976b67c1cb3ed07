/** The compiler from glob patterns to regular expressions, a reader for the regular
    expressions it emits (section 22.2.1 of ECMA-262), and what both accept. */
module Glob {
  import opened Wrappers

  datatype Options = Options(extended: bool, globStar: bool, global: bool)

  const PLAIN := Options(false, false, false)

  // -------------------------------------------------------------------------
  // The compiler

  predicate AlwaysEscaped(c: char) {
    c in "/$^+.()=!|"
  }

  // What a character other than a star is turned into.
  function CharText(c: char, inGroup: bool, o: Options): string {
    if AlwaysEscaped(c) then "\\" + [c]
    else if c == '?' then (if o.extended then "." else "\\" + [c])
    else if c == '[' || c == ']' then (if o.extended then [c] else "\\" + [c])
    else if c == '{' then (if o.extended then "(" else "\\" + [c])
    else if c == '}' then (if o.extended then ")" else "\\" + [c])
    else if c == ',' then (if inGroup then "|" else "\\" + [c])
    else [c]
  }

  function GroupAfter(c: char, inGroup: bool, o: Options): bool {
    if o.extended && c == '{' then true else if o.extended && c == '}' then false else inGroup
  }

  // The end of the run of stars at i.
  function StarsEnd(p: string, i: nat): (e: nat)
    requires i <= |p|
    ensures i <= e <= |p| && (i < |p| && p[i] == '*' ==> i < e)
    ensures e < |p| ==> p[e] != '*'
    decreases |p| - i
  {
    if i < |p| && p[i] == '*' then StarsEnd(p, i + 1) else i
  }

  // A run of stars: what it is turned into, and where the scan goes on.
  function StarText(p: string, i: nat, o: Options): (r: (string, nat))
    requires i < |p| && p[i] == '*'
    ensures r.1 > i
  {
    var e := StarsEnd(p, i);
    var before := if i == 0 then '/' else p[i - 1];
    var behind := if e < |p| then p[e] else '/';
    if !o.globStar then (".*", e)
    else if e - i > 1 && before == '/' && behind == '/' then ("((?:[^/]*(?:\\/|$))*)", e + 1)
    else ("([^/]*)", e)
  }

  function Body(p: string, i: nat, inGroup: bool, o: Options): string
    decreases |p| - i
  {
    if i >= |p| then ""
    else if p[i] == '*' then
      var (text, next) := StarText(p, i, o);
      text + Body(p, next, inGroup, o)
    else CharText(p[i], inGroup, o) + Body(p, i + 1, GroupAfter(p[i], inGroup, o), o)
  }

  function Regex(p: string, o: Options): string {
    (if o.global then ".*" else "^") + Body(p, 0, false, o) + (if o.global then ".*" else "$")
  }

  method GlobToRegex(p: string, o: Options) returns (text: string)
    ensures text == Regex(p, o)
  {
    hide CharText, StarText;
    text := if o.global then ".*" else "^";
    ghost var start := text;
    var inGroup := false;
    var i := 0;
    while i < |p|
      invariant start + Body(p, 0, false, o) == text + Body(p, i, inGroup, o)
      decreases |p| - i
    {
      var c := p[i];
      var emitted;
      if c == '*' {
        emitted, i := SkipStars(p, i, o);
      } else {
        emitted := CharText(c, inGroup, o);
        if o.extended && c == '{' {
          inGroup := true;
        } else if o.extended && c == '}' {
          inGroup := false;
        }
      }
      i := i + 1;
      assert text + (emitted + Body(p, i, inGroup, o)) == (text + emitted) + Body(p, i, inGroup, o);
      text := text + emitted;
    }
    assert text + "" == text;
    text := text + if o.global then ".*" else "$";
  }

  // Moves over all consecutive stars; the scan goes on behind the last one.
  method SkipStars(p: string, first: nat, o: Options) returns (emitted: string, last: nat)
    requires first < |p| && p[first] == '*'
    ensures (emitted, last + 1) == StarText(p, first, o)
  {
    last := first;
    var before := if first == 0 then '/' else p[first - 1];
    var stars := 1;
    while last + 1 < |p| && p[last + 1] == '*'
      invariant first <= last < |p| && stars == last - first + 1
      invariant p[last] == '*' && StarsEnd(p, first) == StarsEnd(p, last)
      decreases |p| - last
    {
      stars := stars + 1;
      last := last + 1;
    }
    assert StarsEnd(p, last + 1) == last + 1;
    var behind := if last + 1 < |p| then p[last + 1] else '/';
    if !o.globStar {
      emitted := ".*";
    } else if stars > 1 && before == '/' && behind == '/' {
      emitted := "((?:[^/]*(?:\\/|$))*)";
      last := last + 1;
    } else {
      emitted := "([^/]*)";
    }
  }

  // -------------------------------------------------------------------------
  // Reading a regular expression back

  /** The terms of a regular expression without groups, classes and alternatives. */
  datatype Term = Start | End | Lit(c: char) | Any | Star(atom: Term)

  predicate SyntaxCharacter(c: char) {
    c in "^$\\.*+?()[]{}|"
  }

  // An identity escape must not be part of an identifier.
  predicate IdentityEscape(c: char) {
    !('a' <= c <= 'z' || 'A' <= c <= 'Z' || '0' <= c <= '9' || c == '_') && c < '\U{80}'
  }

  function ReadAtom(text: string): (r: Option<(Term, string)>)
    ensures r.Some? ==> |r.value.1| < |text|
  {
    if text == "" then None
    else if text[0] == '.' then Some((Any, text[1..]))
    else if text[0] == '\\' then
      if |text| > 1 && IdentityEscape(text[1]) then Some((Lit(text[1]), text[2..])) else None
    else if SyntaxCharacter(text[0]) then None
    else Some((Lit(text[0]), text[1..]))
  }

  // An assertion, or an atom with its quantifier; a lazy star accepts the same names.
  function ReadTerm(text: string): (r: Option<(Term, string)>)
    ensures r.Some? ==> |r.value.1| < |text|
  {
    if text == "" then None
    else if text[0] == '^' then Some((Start, text[1..]))
    else if text[0] == '$' then Some((End, text[1..]))
    else
      match ReadAtom(text)
      case None => None
      case Some((atom, rest)) =>
        if rest != "" && rest[0] == '*' then
          Some((Star(atom), if |rest| > 1 && rest[1] == '?' then rest[2..] else rest[1..]))
        else if rest != "" && rest[0] in "+?{" then None
        else Some((atom, rest))
  }

  function Read(text: string): Option<seq<Term>>
    decreases |text|
  {
    if text == "" then Some([])
    else
      match ReadTerm(text)
      case None => None
      case Some((term, rest)) =>
        match Read(rest)
        case None => None
        case Some(terms) => Some([term] + terms)
  }

  // The terms that a pattern stands for: characters and runs of stars.
  function Terms(p: string, i: nat): seq<Term>
    requires i <= |p|
    decreases |p| - i
  {
    if i == |p| then []
    else if p[i] == '*' then [Star(Any)] + Terms(p, StarsEnd(p, i))
    else [Lit(p[i])] + Terms(p, i + 1)
  }

  // Escaped by the compiler although a regular expression does not require it.
  predicate Harmless(c: char) {
    c in "/=!,"
  }

  // The compiler does not escape backslashes; this one meets a character for which
  // that makes no difference.
  predicate BackslashOk(p: string, i: nat)
    requires i < |p|
  {
    p[i] == '\\' ==> i + 1 < |p| && Harmless(p[i + 1])
  }

  predicate Plain(p: string) {
    forall i | 0 <= i < |p| :: BackslashOk(p, i)
  }

  predicate PlainFrom(p: string, i: nat) {
    forall j | i <= j < |p| :: BackslashOk(p, j)
  }

  lemma {:induction false} ReadChar(c: char, rest: string)
    requires c != '*' && c != '\\' && rest != "" && rest[0] !in "*+?{"
    ensures ReadTerm(CharText(c, false, PLAIN) + rest) == Some((Lit(c), rest))
  {
    var text := CharText(c, false, PLAIN) + rest;
    if CharText(c, false, PLAIN) == [c] {
      assert text[1..] == rest;
    } else {
      assert text[0] == '\\' && text[1] == c && text[2..] == rest;
    }
  }

  lemma {:induction false} ReadStar(rest: string)
    requires rest != "" && rest[0] !in "*+?{"
    ensures ReadTerm(".*" + rest) == Some((Star(Any), rest))
  {
    var text := ".*" + rest;
    assert text[1..] == "*" + rest && text[1..][1..] == rest;
  }

  // A regular expression that begins with a certain term.
  lemma {:induction false} ReadBegins(text: string, term: Term, rest: string, terms: seq<Term>)
    requires ReadTerm(text) == Some((term, rest))
    ensures Read(text) == Some([term] + terms) <==> Read(rest) == Some(terms)
    ensures Read(text).Some? ==> Read(rest).Some? && Read(text).value == [term] + Read(rest).value
  {
    if Read(rest).Some? {
      assert ([term] + Read(rest).value)[1..] == Read(rest).value;
      assert ([term] + terms)[1..] == terms;
    }
  }

  function Emitted(p: string, i: nat): string {
    Body(p, i, false, PLAIN) + "$"
  }

  lemma {:induction false} EmittedAt(p: string, i: nat)
    requires i < |p|
    ensures p[i] == '*' ==> Emitted(p, i) == ".*" + Emitted(p, StarsEnd(p, i))
    ensures p[i] != '*' ==> Emitted(p, i) == CharText(p[i], false, PLAIN) + Emitted(p, i + 1)
  {
    if p[i] == '*' {
      assert Body(p, i, false, PLAIN) == ".*" + Body(p, StarsEnd(p, i), false, PLAIN);
    }
  }

  // A character that is no backslash, or a run of stars, is one term.
  lemma {:induction false} ReadOne(p: string, i: nat, terms: seq<Term>)
    requires i < |p| && p[i] != '\\'
    ensures var (term, next) := if p[i] == '*' then (Star(Any), StarsEnd(p, i)) else (Lit(p[i]), i + 1);
            && (Read(Emitted(p, i)) == Some([term] + terms) <==> Read(Emitted(p, next)) == Some(terms))
            && (Read(Emitted(p, i)).Some? ==>
                  Read(Emitted(p, next)).Some? && Read(Emitted(p, i)).value == [term] + Read(Emitted(p, next)).value)
  {
    hide Read, ReadTerm, Body;
    EmittedAt(p, i);
    if p[i] == '*' {
      var e := StarsEnd(p, i);
      BodyStartsPlain(p, e);
      ReadStar(Emitted(p, e));
      ReadBegins(Emitted(p, i), Star(Any), Emitted(p, e), terms);
    } else {
      BodyStartsPlain(p, i + 1);
      ReadChar(p[i], Emitted(p, i + 1));
      ReadBegins(Emitted(p, i), Lit(p[i]), Emitted(p, i + 1), terms);
    }
  }

  lemma {:induction false} ReadBody(p: string, i: nat)
    requires PlainFrom(p, i) && i <= |p|
    ensures Read(Emitted(p, i)) == Some(Terms(p, i) + [End])
    decreases |p| - i
  {
    hide Read, ReadTerm, Body, Emitted;
    if i == |p| {
      EmittedAtEnd(p);
      assert Terms(p, i) + [End] == [End];
    } else if p[i] == '*' {
      var e := StarsEnd(p, i);
      ReadBody(p, e);
      ReadOne(p, i, Terms(p, e) + [End]);
      assert [Star(Any)] + (Terms(p, e) + [End]) == Terms(p, i) + [End];
    } else if p[i] != '\\' {
      ReadBody(p, i + 1);
      ReadOne(p, i, Terms(p, i + 1) + [End]);
      assert [Lit(p[i])] + (Terms(p, i + 1) + [End]) == Terms(p, i) + [End];
    } else {
      assert BackslashOk(p, i);
      ReadBody(p, i + 2);
      ReadPair(p, i, Terms(p, i + 2) + [End]);
      TermsOfPair(p, i);
    }
  }

  lemma {:induction false} TermsOfPair(p: string, i: nat)
    requires i + 1 < |p| && p[i] == '\\' && p[i + 1] != '*'
    ensures Terms(p, i) + [End] == [Lit(p[i]), Lit(p[i + 1])] + (Terms(p, i + 2) + [End])
  {
    var rest := Terms(p, i + 2);
    assert Terms(p, i + 1) == [Lit(p[i + 1])] + rest;
    assert Terms(p, i) == [Lit(p[i])] + ([Lit(p[i + 1])] + rest);
  }

  // A backslash and a harmless character read as themselves.
  lemma {:induction false} ReadPair(p: string, i: nat, terms: seq<Term>)
    requires i + 1 < |p| && p[i] == '\\' && Harmless(p[i + 1])
    ensures Read(Emitted(p, i)) == Some([Lit(p[i]), Lit(p[i + 1])] + terms) <==> Read(Emitted(p, i + 2)) == Some(terms)
    ensures Read(Emitted(p, i)).Some? ==>
              && Read(Emitted(p, i + 2)).Some?
              && Read(Emitted(p, i)).value == [Lit(p[i])] + ([Lit(p[i + 1])] + Read(Emitted(p, i + 2)).value)
  {
    hide Read, Body, Emitted;
    var c, rest := p[i + 1], Emitted(p, i + 2);
    EmittedAt(p, i);
    EmittedAt(p, i + 1);
    BodyStartsPlain(p, i + 2);
    ReadEscapedBackslash([c] + rest);
    ReadRaw(c, rest);
    assert Emitted(p, i) == "\\\\" + ([c] + rest);
    ReadBegins(Emitted(p, i), Lit('\\'), [c] + rest, [Lit(c)] + terms);
    ReadBegins([c] + rest, Lit(c), rest, terms);
    assert [Lit('\\')] + ([Lit(c)] + terms) == [Lit(p[i]), Lit(c)] + terms;
  }

  lemma {:induction false} ReadEscapedBackslash(rest: string)
    requires rest != "" && rest[0] !in "*+?{"
    ensures ReadTerm("\\\\" + rest) == Some((Lit('\\'), rest))
  {
    var text := "\\\\" + rest;
    assert text[0] == '\\' && text[1] == '\\' && text[2..] == rest;
  }

  lemma {:induction false} ReadRaw(c: char, rest: string)
    requires Harmless(c) && rest != "" && rest[0] !in "*+?{"
    ensures ReadTerm([c] + rest) == Some((Lit(c), rest))
  {
    assert ([c] + rest)[1..] == rest;
  }

  lemma {:induction false} EmittedAtEnd(p: string)
    ensures Emitted(p, |p|) == "$" && Read(Emitted(p, |p|)) == Some([End])
  {
    ReadDollar();
  }

  lemma {:induction false} ReadEmpty()
    ensures Read("") == Some([])
  {
  }

  lemma {:induction false} ReadDollar()
    ensures Read("$") == Some([End])
  {
    assert "$"[1..] == "";
    assert Read("") == Some([]) && ReadTerm("$") == Some((End, ""));
    ReadBegins("$", End, "", []);
    assert [End] + [] == [End];
  }

  // No emitted text continues the quantifier of the term before it.
  lemma {:induction false} BodyStartsPlain(p: string, i: nat)
    requires i <= |p|
    ensures Emitted(p, i) != "" && Emitted(p, i)[0] !in "*+?{"
  {
    if i < |p| && p[i] == '*' {
      assert Body(p, i, false, PLAIN)[0] == '.';
    } else if i < |p| {
      assert Body(p, i, false, PLAIN)[0] == CharText(p[i], false, PLAIN)[0];
    }
  }

  // -------------------------------------------------------------------------
  // Shortest names

  // A shortest name for the terms: a star stands for nothing.
  function Letters(term: Term): string {
    match term
    case Lit(c) => [c]
    case Any => "x"
    case _ => ""
  }

  function Shortest(terms: seq<Term>): string {
    if terms == [] then "" else Letters(terms[0]) + Shortest(terms[1..])
  }

  // The shortest name for a glob is the pattern without its stars.
  function Strip(p: string): string {
    if p == "" then "" else (if p[0] == '*' then "" else [p[0]]) + Strip(p[1..])
  }

  predicate LineTerminator(c: char) {
    c == '\n' || c == '\r' || c == '\U{2028}' || c == '\U{2029}'
  }

  predicate OneLine(s: string) {
    forall i | 0 <= i < |s| :: !LineTerminator(s[i])
  }

  lemma {:induction false} ShortestCons(term: Term, terms: seq<Term>)
    ensures Shortest([term] + terms) == Letters(term) + Shortest(terms)
    ensures Shortest([term]) == Letters(term)
  {
    assert ([term] + terms)[1..] == terms;
    assert [term][1..] == [];
  }

  lemma {:induction false} OneLineParts(a: string, b: string)
    ensures OneLine(a + b) <==> OneLine(a) && OneLine(b)
  {
    if OneLine(a + b) {
      forall i | 0 <= i < |a| ensures !LineTerminator(a[i]) { assert a[i] == (a + b)[i]; }
      forall i | 0 <= i < |b| ensures !LineTerminator(b[i]) { assert b[i] == (a + b)[|a| + i]; }
    }
  }

  lemma {:induction false} StripAt(p: string, i: nat)
    requires i < |p|
    ensures p[i] == '*' ==> Strip(p[i..]) == Strip(p[StarsEnd(p, i)..])
    ensures p[i] != '*' ==> Strip(p[i..]) == [p[i]] + Strip(p[i + 1..])
    decreases |p| - i
  {
    assert p[i..][1..] == p[i + 1..];
    if p[i] == '*' {
      if i + 1 < |p| && p[i + 1] == '*' {
        StripAt(p, i + 1);
      } else {
        assert StarsEnd(p, i + 1) == i + 1;
      }
    }
  }

  // Only stars are skipped with a run.
  lemma {:induction false} StarsOnly(p: string, i: nat, j: nat)
    requires i <= j < |p| && p[j] != '*'
    ensures StarsEnd(p, i) <= j
    decreases j - i
  {
    if i < j { if p[i] == '*' { StarsOnly(p, i + 1, j); } }
  }

  // The terms read from position i on, compared with the pattern from there on.
  predicate NotLonger(p: string, i: nat, terms: seq<Term>)
    requires i <= |p|
  {
    && |Shortest(terms)| <= |Strip(p[i..])|
    && (Shortest(terms) == Strip(p[i..]) ==> PlainFrom(p, i))
    && (OneLine(Shortest(terms)) <==> OneLine(Strip(p[i..])))
  }

  // The same letter in front of both.
  lemma {:induction false} NotLongerCons(p: string, i: nat, terms: seq<Term>)
    requires i < |p| && p[i] != '*' && BackslashOk(p, i) && NotLonger(p, i + 1, terms)
    ensures NotLonger(p, i, [Lit(p[i])] + terms)
  {
    StripAt(p, i);
    ShortestCons(Lit(p[i]), terms);
    var w, v := Shortest(terms), Strip(p[i + 1..]);
    OneLineParts([p[i]], w);
    OneLineParts([p[i]], v);
    if [p[i]] + w == [p[i]] + v { assert ([p[i]] + w)[1..] == w && ([p[i]] + v)[1..] == v; }
  }

  // A run of stars in front, which adds no letter.
  lemma {:induction false} NotLongerStars(p: string, i: nat, terms: seq<Term>)
    requires i < |p| && p[i] == '*' && NotLonger(p, StarsEnd(p, i), terms)
    ensures NotLonger(p, i, [Star(Any)] + terms)
  {
    StripAt(p, i);
    ShortestCons(Star(Any), terms);
    assert "" + Shortest(terms) == Shortest(terms);
    if PlainFrom(p, StarsEnd(p, i)) {
      forall j | i <= j < |p| ensures BackslashOk(p, j) {
        if p[j] != '*' { StarsOnly(p, i, j); }
      }
    }
  }

  // Different letters in front, and not more of them.
  lemma {:induction false} NotLongerApart(p: string, i: nat, terms: seq<Term>, next: nat, rest: seq<Term>, a: string, b: string)
    requires i <= next <= |p| && NotLonger(p, next, rest)
    requires Shortest(terms) == a + Shortest(rest) && Strip(p[i..]) == b + Strip(p[next..])
    requires |a| <= |b| && a != b && (OneLine(a) <==> OneLine(b))
    ensures NotLonger(p, i, terms)
  {
    var w, v := Shortest(rest), Strip(p[next..]);
    OneLineParts(a, w);
    OneLineParts(b, v);
    assert (a + w)[..|a|] == a && (b + v)[..|b|] == b;
  }

  lemma {:induction false} NotLongerAtEnd(p: string)
    ensures NotLonger(p, |p|, []) && NotLonger(p, |p|, [End]) && Shortest([End]) == Strip("") == ""
  {
    ShortestCons(End, []);
    assert p[|p|..] == "";
  }

  // The name that is read is no longer than the one the pattern stands for, and it is
  // that one only if all backslashes are harmless.
  lemma {:induction false} ReadShortest(p: string, i: nat)
    requires i <= |p| && Read(Emitted(p, i)).Some?
    ensures NotLonger(p, i, Read(Emitted(p, i)).value)
    decreases |p| - i, 1
  {
    hide Read, ReadTerm, Body, Emitted, NotLonger;
    if i == |p| {
      EmittedAtEnd(p);
      NotLongerAtEnd(p);
    } else if p[i] == '*' {
      ReadOne(p, i, []);
      ReadShortest(p, StarsEnd(p, i));
      NotLongerStars(p, i, Read(Emitted(p, StarsEnd(p, i))).value);
    } else if p[i] != '\\' {
      ReadOne(p, i, []);
      ReadShortest(p, i + 1);
      NotLongerCons(p, i, Read(Emitted(p, i + 1)).value);
    } else if BackslashOk(p, i) {
      ReadPair(p, i, []);
      ReadShortest(p, i + 2);
      NotLongerCons(p, i + 1, Read(Emitted(p, i + 2)).value);
      NotLongerCons(p, i, [Lit(p[i + 1])] + Read(Emitted(p, i + 2)).value);
    } else {
      BadBackslash(p, i);
    }
  }

  // A backslash before anything else makes a shorter or a different name.
  lemma {:induction false} BadBackslash(p: string, i: nat)
    requires i < |p| && !BackslashOk(p, i) && Read(Emitted(p, i)).Some?
    ensures NotLonger(p, i, Read(Emitted(p, i)).value)
    decreases |p| - i, 0
  {
    hide Read, ReadTerm, Body, Emitted, NotLonger;
    var terms := Read(Emitted(p, i)).value;
    EmittedAt(p, i);
    StripAt(p, i);
    if i + 1 == |p| {
      EmittedAtEnd(p);
      ReadEmpty();
      ReadBareEscape('$', "");
      assert Emitted(p, i) == "\\" + (['$'] + "");
      ReadBegins(Emitted(p, i), Lit('$'), "", []);
      ShortestCons(Lit('$'), []);
      NotLongerAtEnd(p);
      assert terms == [Lit('$')] && p[i + 1..] == "";
      NotLongerApart(p, i, terms, |p|, [], "$", "\\");
    } else {
      EmittedAt(p, i + 1);
      StripAt(p, i + 1);
      var d := p[i + 1];
      if d == '*' {
        var e := StarsEnd(p, i + 1);
        BodyStartsPlain(p, e);
        ReadEscapedDot(Emitted(p, e));
        ReadBegins(Emitted(p, i), Star(Lit('.')), Emitted(p, e), []);
        ReadShortest(p, e);
        var rest := Read(Emitted(p, e)).value;
        ShortestCons(Star(Lit('.')), rest);
        NotLongerApart(p, i, terms, e, rest, "", "\\");
      } else {
        BodyStartsPlain(p, i + 2);
        assert Emitted(p, i) == "\\" + (CharText(d, false, PLAIN) + Emitted(p, i + 2));
        var letters := BadPair(d, Emitted(p, i + 2));
        ReadShortest(p, i + 2);
        assert Strip(p[i..]) == ['\\', d] + Strip(p[i + 2..]);
        NotLongerApart(p, i, terms, i + 2, Read(Emitted(p, i + 2)).value, letters, ['\\', d]);
      }
    }
  }

  // An escaped character that is none of the compiler's own escapes.
  lemma {:induction false} ReadBareEscape(c: char, rest: string)
    requires rest == "" || rest[0] !in "*+?{"
    ensures ReadTerm("\\" + ([c] + rest)) == if IdentityEscape(c) then Some((Lit(c), rest)) else None
  {
    var text := "\\" + ([c] + rest);
    assert text[1] == c && text[2..] == rest;
  }

  lemma {:induction false} ReadEscapedDot(rest: string)
    requires rest != "" && rest[0] !in "*+?{"
    ensures ReadTerm("\\" + (".*" + rest)) == Some((Star(Lit('.')), rest))
  {
    var text := "\\" + (".*" + rest);
    assert text[1] == '.' && text[2..] == "*" + rest && text[2..][1..] == rest;
  }

  // What a backslash and a character that is not escaped turn into.
  lemma {:induction false} BadRaw(d: char, rest: string)
    requires rest != "" && rest[0] !in "*+?{" && Read("\\" + ([d] + rest)).Some?
    ensures Read(rest).Some? && Shortest(Read("\\" + ([d] + rest)).value) == [d] + Shortest(Read(rest).value)
  {
    hide Read;
    var text := "\\" + ([d] + rest);
    ReadBareEscape(d, rest);
    if ReadTerm(text).None? { ReadFails(text); }
    ReadBegins(text, Lit(d), rest, []);
    ShortestCons(Lit(d), Read(rest).value);
  }

  // What a backslash and an escaped character turn into.
  lemma {:induction false} BadEscaped(d: char, rest: string) returns (second: Term)
    requires CharText(d, false, PLAIN) != [d] && d != '*' && !Harmless(d) && rest != "" && rest[0] !in "*+?{"
    requires Read("\\\\" + ([d] + rest)).Some?
    ensures second in {Start, End, Any} && (second == Any ==> d == '.')
    ensures Read(rest).Some?
    ensures Shortest(Read("\\\\" + ([d] + rest)).value) == "\\" + (Letters(second) + Shortest(Read(rest).value))
  {
    hide Read, ReadTerm, CharText, Letters, Shortest;
    var text, tail := "\\\\" + ([d] + rest), [d] + rest;
    if d in "+?{" {
      ReadQuantified(d, rest);
      ReadFails(text);
    }
    ReadEscapedBackslash(tail);
    ReadBegins(text, Lit('\\'), tail, []);
    ReadSpecial(d, rest);
    if ReadTerm(tail).None? { ReadFails(tail); }
    second := ReadTerm(tail).value.0;
    ReadBegins(tail, second, rest, []);
    ShortestCons(second, Read(rest).value);
    ShortestCons(Lit('\\'), Read(tail).value);
    assert Letters(Lit('\\')) == "\\" by { LettersOf('\\'); }
  }

  lemma {:induction false} LettersOf(c: char)
    ensures Letters(Lit(c)) == [c]
  {
  }

  lemma {:induction false} BadPair(d: char, rest: string) returns (letters: string)
    requires d != '*' && !Harmless(d) && rest != "" && rest[0] !in "*+?{"
    requires Read("\\" + (CharText(d, false, PLAIN) + rest)).Some?
    ensures |letters| <= 2 && letters != ['\\', d] && (OneLine(letters) <==> OneLine(['\\', d]))
    ensures Read(rest).Some?
    ensures Shortest(Read("\\" + (CharText(d, false, PLAIN) + rest)).value) == letters + Shortest(Read(rest).value)
  {
    hide Read, ReadTerm, Shortest;
    if CharText(d, false, PLAIN) == [d] {
      BadRaw(d, rest);
      letters := [d];
      OneLineParts("\\", [d]);
      assert "\\" + [d] == ['\\', d];
    } else {
      assert "\\" + (CharText(d, false, PLAIN) + rest) == "\\\\" + ([d] + rest);
      var second := BadEscaped(d, rest);
      letters := "\\" + Letters(second);
      assert "\\" + "x" == ['\\', 'x'];
      assert !LineTerminator(['\\', d][1]);
    }
  }

  lemma {:induction false} ReadFails(text: string)
    requires text != "" && ReadTerm(text).None?
    ensures Read(text).None?
  {
  }

  lemma {:induction false} ReadQuantified(d: char, rest: string)
    requires d in "+?{"
    ensures ReadTerm("\\\\" + ([d] + rest)).None?
  {
    var text := "\\\\" + ([d] + rest);
    assert text[1] == '\\' && text[2..] == [d] + rest;
  }

  lemma {:induction false} ReadSpecial(d: char, rest: string)
    requires CharText(d, false, PLAIN) != [d] && !Harmless(d) && d != '*' && d !in "+?{" && rest != "" && rest[0] !in "*+?{"
    ensures var r := ReadTerm([d] + rest);
            r.Some? ==> r.value.1 == rest && r.value.0 in {Start, End, Any} && (r.value.0 == Any ==> d == '.')
  {
    assert ([d] + rest)[1..] == rest;
  }

  // The emitted text reads back as the pattern's characters and runs of stars, each run
  // as one, exactly when every backslash is followed by one of the characters / = ! ,
  lemma {:induction false} RegexReadsBack(p: string)
    ensures Read(Regex(p, PLAIN)) == Some([Start] + Terms(p, 0) + [End]) <==> Plain(p)
  {
    hide Read;
    var rest := Emitted(p, 0);
    if Plain(p) { ReadBody(p, 0); }
    if Read(rest).Some? { ReadShortest(p, 0); }
    TermsShortest(p, 0);
    assert Regex(p, PLAIN) == "^" + rest;
    assert ("^" + rest)[1..] == rest;
    ReadBegins("^" + rest, Start, rest, Terms(p, 0) + [End]);
    assert [Start] + (Terms(p, 0) + [End]) == [Start] + Terms(p, 0) + [End];
  }

  lemma {:induction false} TermsShortest(p: string, i: nat)
    requires i <= |p|
    ensures Shortest(Terms(p, i) + [End]) == Strip(p[i..])
    decreases |p| - i
  {
    hide Strip, Shortest, StarsEnd;
    if i == |p| {
      NotLongerAtEnd(p);
      assert Terms(p, i) + [End] == [End] && p[i..] == "";
    } else {
      var term, next := if p[i] == '*' then Star(Any) else Lit(p[i]), if p[i] == '*' then StarsEnd(p, i) else i + 1;
      TermsShortest(p, next);
      TermsAt(p, i, term, next);
      ShortestCons(term, Terms(p, next) + [End]);
      StripAt(p, i);
      assert "" + Strip(p[next..]) == Strip(p[next..]);
    }
  }

  lemma {:induction false} TermsAt(p: string, i: nat, term: Term, next: nat)
    requires i < |p|
    requires if p[i] == '*' then (term, next) == (Star(Any), StarsEnd(p, i)) else (term, next) == (Lit(p[i]), i + 1)
    ensures Terms(p, i) + [End] == [term] + (Terms(p, next) + [End])
  {
  }

  // -------------------------------------------------------------------------
  // What is accepted

  predicate AtomAccepts(atom: Term, c: char) {
    match atom
    case Lit(x) => c == x
    case Any => !LineTerminator(c)
    case _ => false
  }

  // The terms match all of the name from a position on.
  predicate Matches(terms: seq<Term>, s: string, at: nat)
    requires at <= |s|
    decreases |terms|, |s| - at
  {
    if terms == [] then at == |s|
    else
      match terms[0]
      case Start => at == 0 && Matches(terms[1..], s, at)
      case End => at == |s| && Matches(terms[1..], s, at)
      case Star(atom) =>
        || Matches(terms[1..], s, at)
        || (at < |s| && AtomAccepts(atom, s[at]) && Matches(terms, s, at + 1))
      case _ => at < |s| && AtomAccepts(terms[0], s[at]) && Matches(terms[1..], s, at + 1)
  }

  // A glob: a star is any run of characters, everything else is itself.
  predicate Accepts(p: string, s: string)
    decreases |p|, |s|
  {
    if p == "" then s == ""
    else if p[0] == '*' then Accepts(p[1..], s) || (s != "" && Accepts(p, s[1..]))
    else s != "" && s[0] == p[0] && Accepts(p[1..], s[1..])
  }

  // More stars in a row do not change what is accepted.
  lemma {:induction false} StarsCollapse(p: string, s: string)
    requires |p| >= 2 && p[0] == '*' && p[1] == '*'
    ensures Accepts(p, s) == Accepts(p[1..], s)
    decreases |s|
  {
    if s != "" { StarsCollapse(p, s[1..]); }
  }

  lemma {:induction false} RunCollapses(p: string, i: nat, s: string)
    requires i < |p| && p[i] == '*'
    ensures Accepts(p[i..], s) == Accepts("*" + p[StarsEnd(p, i)..], s)
    decreases |p| - i
  {
    if i + 1 < |p| && p[i + 1] == '*' {
      StarsCollapse(p[i..], s);
      assert p[i..][1..] == p[i + 1..];
      RunCollapses(p, i + 1, s);
    } else {
      assert StarsEnd(p, i + 1) == i + 1;
      assert p[i..] == "*" + p[i + 1..];
    }
  }

  lemma {:induction false} TermsAccept(p: string, i: nat, s: string, at: nat)
    requires i <= |p| && at <= |s| && OneLine(s)
    ensures Matches(Terms(p, i) + [End], s, at) == Accepts(p[i..], s[at..])
    decreases |p| - i, |s| - at
  {
    var terms := Terms(p, i) + [End];
    if i == |p| {
      assert terms == [End] && terms[1..] == [];
    } else if p[i] == '*' {
      var e := StarsEnd(p, i);
      var rest := Terms(p, e) + [End];
      assert terms[1..] == rest;
      TermsAccept(p, e, s, at);
      RunCollapses(p, i, s[at..]);
      assert ("*" + p[e..])[1..] == p[e..];
      if at < |s| {
        TermsAccept(p, i, s, at + 1);
        RunCollapses(p, i, s[at + 1..]);
        assert s[at..][1..] == s[at + 1..];
      }
    } else {
      assert terms[1..] == Terms(p, i + 1) + [End];
      assert p[i..][1..] == p[i + 1..];
      if at < |s| {
        TermsAccept(p, i + 1, s, at + 1);
        assert s[at..][1..] == s[at + 1..];
      }
    }
  }

  // The compiled pattern accepts a name without line breaks exactly when the glob does.
  lemma {:induction false} RegexMeansGlob(p: string, s: string)
    requires Plain(p) && OneLine(s)
    ensures Read(Regex(p, PLAIN)).Some?
    ensures Matches(Read(Regex(p, PLAIN)).value, s, 0) <==> Accepts(p, s)
  {
    RegexReadsBack(p);
    hide Read;
    var terms := [Start] + Terms(p, 0) + [End];
    assert terms[1..] == Terms(p, 0) + [End];
    TermsAccept(p, 0, s, 0);
    assert p[0..] == p && s[0..] == s;
  }

  // The glob accepts no name shorter than its own letters, and of their length only them.
  lemma {:induction false} AcceptsAtLeast(p: string, s: string)
    requires Accepts(p, s)
    ensures |Strip(p)| <= |s| && (|Strip(p)| == |s| ==> s == Strip(p))
    ensures OneLine(s) ==> OneLine(Strip(p))
    decreases |p|, |s|
  {
    if p == "" {
    } else if p[0] == '*' {
      assert Strip(p) == Strip(p[1..]);
      if Accepts(p[1..], s) { AcceptsAtLeast(p[1..], s); } else { AcceptsAtLeast(p, s[1..]); }
    } else {
      AcceptsAtLeast(p[1..], s[1..]);
      assert s == [s[0]] + s[1..];
      OneLineParts([p[0]], Strip(p[1..]));
    }
  }

  lemma {:induction false} AcceptsStrip(p: string)
    ensures Accepts(p, Strip(p))
    ensures OneLine(Strip(p)) <==> OneLine(p)
  {
    if p != "" {
      AcceptsStrip(p[1..]);
      assert p == [p[0]] + p[1..];
      OneLineParts([p[0]], p[1..]);
      if p[0] == '*' {
        assert Strip(p) == Strip(p[1..]);
      } else {
        OneLineParts([p[0]], Strip(p[1..]));
        assert Strip(p)[1..] == Strip(p[1..]);
      }
    }
  }

  // Behind its first character a name may be matched at any place.
  lemma {:induction false} MatchesMoved(terms: seq<Term>, s: string, at: nat, t: string, to: nat)
    requires 0 < at <= |s| && to <= |t| && s[at..] == t[to..]
    requires Matches(terms, s, at)
    ensures Matches(terms, t, to)
    decreases |terms|, |s| - at
  {
    assert |s| - at == |t| - to;
    if at < |s| { assert s[at] == s[at..][0] == t[to] && s[at + 1..] == s[at..][1..] == t[to + 1..]; }
    if terms != [] {
      match terms[0]
      case Start =>
      case End => MatchesMoved(terms[1..], s, at, t, to);
      case Star(atom) =>
        if Matches(terms[1..], s, at) {
          MatchesMoved(terms[1..], s, at, t, to);
        } else {
          MatchesMoved(terms, s, at + 1, t, to + 1);
        }
      case _ => MatchesMoved(terms[1..], s, at + 1, t, to + 1);
    }
  }

  // If any name is matched, the shortest one is.
  lemma {:induction false} MatchesShortest(terms: seq<Term>, s: string, at: nat)
    requires at <= |s| && Matches(terms, s, at)
    ensures |Shortest(terms)| <= |s| - at
    ensures Matches(terms, s[..at] + Shortest(terms), at)
    ensures OneLine(s) ==> OneLine(Shortest(terms))
    decreases |terms|, |s| - at
  {
    var t := s[..at] + Shortest(terms);
    if terms == [] {
    } else {
      var rest := terms[1..];
      assert Letters(terms[0]) == "" ==> Shortest(terms) == Shortest(rest);
      match terms[0]
      case Start => MatchesShortest(rest, s, at);
      case End => MatchesShortest(rest, s, at);
      case Star(atom) =>
        if Matches(rest, s, at) {
          MatchesShortest(rest, s, at);
        } else {
          MatchesShortest(terms, s, at + 1);
          var u := s[..at + 1] + Shortest(terms);
          assert u[at + 1..] == Shortest(terms) == t[at..];
          MatchesMoved(terms, u, at + 1, t, at);
        }
      case _ =>
        MatchesShortest(rest, s, at + 1);
        var u := s[..at + 1] + Shortest(rest);
        assert u[at + 1..] == Shortest(rest) == t[at + 1..];
        MatchesMoved(rest, u, at + 1, t, at + 1);
        OneLineParts(Letters(terms[0]), Shortest(rest));
    }
  }

  // On names without line breaks a pattern that can be read means the glob if and only
  // if its backslashes are harmless, or if neither accepts any such name.
  lemma {:induction false} RegexIsGlob(p: string)
    requires Read(Regex(p, PLAIN)).Some?
    ensures (forall s | OneLine(s) :: Matches(Read(Regex(p, PLAIN)).value, s, 0) <==> Accepts(p, s))
            <==> Plain(p) || !OneLine(p)
  {
    hide Read, Matches, Accepts, Plain, OneLine;
    var terms := Read(Regex(p, PLAIN)).value;
    if Plain(p) {
      forall s | OneLine(s) ensures Matches(terms, s, 0) <==> Accepts(p, s) { RegexMeansGlob(p, s); }
    } else {
      ShortestOfRegex(p);
      AcceptsStrip(p);
      if OneLine(p) {
        Disagree(p, terms);
      } else {
        forall s | OneLine(s) ensures !Matches(terms, s, 0) && !Accepts(p, s) {
          if Matches(terms, s, 0) { MatchesShortest(terms, s, 0); }
          if Accepts(p, s) { AcceptsAtLeast(p, s); }
        }
      }
    }
  }

  lemma {:induction false} ShortestOfRegex(p: string)
    requires Read(Regex(p, PLAIN)).Some?
    ensures var w := Shortest(Read(Regex(p, PLAIN)).value);
            |w| <= |Strip(p)| && (w == Strip(p) ==> Plain(p)) && (OneLine(w) <==> OneLine(Strip(p)))
  {
    hide Read;
    var rest := Emitted(p, 0);
    assert Regex(p, PLAIN) == "^" + rest && ("^" + rest)[1..] == rest;
    ReadBegins("^" + rest, Start, rest, []);
    ReadShortest(p, 0);
    ShortestCons(Start, Read(rest).value);
    assert p[0..] == p && "" + Shortest(Read(rest).value) == Shortest(Read(rest).value);
  }

  // One of the two shortest names tells the pattern from its glob.
  lemma {:induction false} Disagree(p: string, terms: seq<Term>)
    requires OneLine(Shortest(terms)) && OneLine(Strip(p))
    requires |Shortest(terms)| <= |Strip(p)| && Shortest(terms) != Strip(p)
    ensures exists s :: OneLine(s) && Matches(terms, s, 0) != Accepts(p, s)
  {
    hide OneLine;
    if Matches(terms, Strip(p), 0) {
      var w := Shortest(terms);
      MatchesShortest(terms, Strip(p), 0);
      assert Strip(p)[..0] + w == w;
      if Accepts(p, w) { AcceptsAtLeast(p, w); }
      assert Matches(terms, w, 0) != Accepts(p, w);
    } else {
      AcceptsStrip(p);
      assert Matches(terms, Strip(p), 0) != Accepts(p, Strip(p));
    }
  }

  // A backslash is not escaped: with one before a dot the compiled pattern accepts a
  // name that does not even contain a dot.
  lemma {:induction false} BackslashChangesMeaning()
    ensures Read(Regex("\\.", PLAIN)) == Some([Start, Lit('\\'), Any, End])
    ensures Matches([Start, Lit('\\'), Any, End], "\\x", 0) && !Accepts("\\.", "\\x")
  {
    hide Read, Matches;
    ReadBackslash();
    BackslashMatches();
    assert "\\."[1..] == "." && "\\x"[1..] == "x";
  }

  lemma {:induction false} ReadBackslash()
    ensures Read(Regex("\\.", PLAIN)) == Some([Start, Lit('\\'), Any, End])
  {
    hide Read, ReadTerm;
    var p := "\\.";
    assert Body(p, 2, false, PLAIN) == "" && Body(p, 1, false, PLAIN) == "\\." && Body(p, 0, false, PLAIN) == "\\\\.";
    assert Regex(p, PLAIN) == "^\\\\.$";
    ReadDollar();
    ReadPieces();
    ReadBegins(".$", Any, "$", [End]);
    ReadBegins("\\\\.$", Lit('\\'), ".$", [Any] + [End]);
    ReadBegins("^\\\\.$", Start, "\\\\.$", [Lit('\\')] + ([Any] + [End]));
    assert [Start] + ([Lit('\\')] + ([Any] + [End])) == [Start, Lit('\\'), Any, End];
  }

  lemma {:induction false} ReadPieces()
    ensures ReadTerm(".$") == Some((Any, "$"))
    ensures ReadTerm("\\\\.$") == Some((Lit('\\'), ".$"))
    ensures ReadTerm("^\\\\.$") == Some((Start, "\\\\.$"))
  {
    assert ".$"[1..] == "$" && "\\\\.$"[2..] == ".$" && "^\\\\.$"[1..] == "\\\\.$";
  }

  lemma {:induction false} BackslashMatches()
    ensures Matches([Start, Lit('\\'), Any, End], "\\x", 0)
  {
    var terms, name := [Start, Lit('\\'), Any, End], "\\x";
    assert terms[1..] == [Lit('\\'), Any, End] && terms[1..][1..] == [Any, End] && terms[1..][1..][1..] == [End];
    assert [End][1..] == [];
    assert Matches([], name, 2);
    assert Matches([End], name, 2);
    assert Matches([Any, End], name, 1) by { assert [Any, End][1..] == [End]; }
  }
}
