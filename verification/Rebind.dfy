/** Translation of `?` placeholders to `$1, $2, ...` and what both forms mean. */
module Rebind {
  import opened Core
  import opened Decimal

  /** A query as the driver sees it: text, references to arguments, counted from 1, and what the
      lexer rejects or takes for the start of a dollar-quoted string. */
  datatype Part = Text(c: char) | Arg(n: nat) | Junk

  // ---- Where a character stands ----

  /** Outside of any quotes (Code), inside a word, a string or a quoted identifier, or a comment.
      Opening and Closing are the middles of the two marks of a block comment. */
  datatype Mode = Code | Word | Within(close: char) | Line | Opening | Block | Closing

  predicate IsIdentStart(c: char) {
    'a' <= c <= 'z' || 'A' <= c <= 'Z' || c == '_' || c as int >= 128
  }

  predicate Starts(q: string, first: char, second: char) {
    |q| >= 2 && q[0] == first && q[1] == second
  }

  /** After the first character. Doubled quotes close and open again. */
  function After(mode: Mode, q: string): Mode
    requires q != []
  {
    match mode
    case Within(close) => if q[0] == close then Code else mode
    case Line => if q[0] == '\n' then Code else Line
    case Opening => Block
    case Block => if Starts(q, '*', '/') then Closing else Block
    case Closing => Code
    case _ =>
      if q[0] == '\'' || q[0] == '"' then Within(q[0])
      else if Starts(q, '-', '-') then Line
      else if Starts(q, '/', '*') then Opening
      else if IsIdentStart(q[0]) || IsDigit(q[0]) || (mode.Word? && q[0] == '$') then Word
      else Code
  }

  // ---- The two readings ----

  /** SQLite's reading: the k-th `?` outside of quotes and comments is the k-th argument. */
  function ReadQuestion(q: string, mode: Mode, seen: nat): seq<Part> {
    if q == [] then []
    else if (mode.Code? || mode.Word?) && q[0] == '?' then [Arg(seen + 1)] + ReadQuestion(q[1..], Code, seen + 1)
    else [Text(q[0])] + ReadQuestion(q[1..], After(mode, q), seen)
  }

  /** Postgres's reading: `$` and the longest run of digits after it, which no word may touch. Within a
      word `$` is a letter; before a letter or another `$` it opens a dollar-quoted string. */
  function ReadDollar(q: string, mode: Mode): seq<Part>
    decreases |q|
  {
    if q == [] then []
    else if mode.Code? && q[0] == '$' && DigitRun(q[1..]) > 0 then
      var n := DigitRun(q[1..]);
      var rest := q[1 + n..];
      [if rest != [] && IsIdentStart(rest[0]) then Junk else Arg(Value(q[1..][..n]))] + ReadDollar(rest, Code)
    else if mode.Code? && q[0] == '$' && |q| > 1 && (q[1] == '$' || IsIdentStart(q[1])) then
      [Junk] + ReadDollar(q[1..], Code)
    else [Text(q[0])] + ReadDollar(q[1..], After(mode, q))
  }

  /** rebind on a Postgres store. */
  function Rebound(q: string, seen: nat): string {
    if q == [] then []
    else if q[0] == '?' then "$" + Itoa(seen + 1) + Rebound(q[1..], seen + 1)
    else [q[0]] + Rebound(q[1..], seen)
  }

  /** The loop of rebind. */
  method RebindQuery(query: string, postgres: bool) returns (out: string)
    ensures out == if postgres then Rebound(query, 0) else query
  {
    if !postgres {
      return query;
    }
    out := "";
    var n := 0;
    var i := 0;
    assert query[0..] == query;
    while i < |query|
      invariant i <= |query|
      invariant Rebound(query, 0) == out + Rebound(query[i..], n)
    {
      assert query[i..][1..] == query[i + 1..];
      if query[i] == '?' {
        n := n + 1;
        out := out + "$";
        out := out + Itoa(n);
      } else {
        out := out + [query[i]];
      }
      i := i + 1;
    }
  }

  // ---- When the two agree ----

  predicate MeetsNumber(q: string) {
    |q| > 1 && (IsDigit(q[1]) || IsIdentStart(q[1]))
  }

  /** The first character is a `?` in quotes, a comment or at the end of a word, or with a digit or a
      letter right after it; or a `$` that is not just text. */
  predicate Misread(q: string, mode: Mode)
    requires q != []
  {
    || (q[0] == '?' && (!mode.Code? || MeetsNumber(q)))
    || (q[0] == '$' && mode.Code? && (MeetsNumber(q) || Starts(q, '$', '$') || Starts(q, '$', '?')))
  }

  predicate Ambiguous(q: string, mode: Mode) {
    q != [] && (Misread(q, mode) || Ambiguous(q[1..], After(mode, q)))
  }

  /** The mode at position i. */
  function ModeAt(q: string, mode: Mode, i: nat): Mode
    requires i <= |q|
    decreases i
  {
    if i == 0 then mode else ModeAt(q[1..], After(mode, q), i - 1)
  }

  /** Ambiguous says that some character is misread where it stands. */
  lemma {:induction false} AmbiguousIff(q: string, mode: Mode)
    ensures Ambiguous(q, mode) <==> exists i :: 0 <= i < |q| && Misread(q[i..], ModeAt(q, mode, i))
    decreases |q|
  {
    if q == [] {
    } else {
      var next := After(mode, q);
      AmbiguousIff(q[1..], next);
      assert forall i :: 0 <= i < |q[1..]| ==>
          q[1..][i..] == q[i + 1..] && ModeAt(q, mode, i + 1) == ModeAt(q[1..], next, i);
      if i :| 0 <= i < |q[1..]| && Misread(q[1..][i..], ModeAt(q[1..], next, i)) {
        assert Misread(q[i + 1..], ModeAt(q, mode, i + 1));
      }
      if i :| 0 <= i < |q| && Misread(q[i..], ModeAt(q, mode, i)) {
        if i == 0 {
          assert q[0..] == q;
        } else {
          assert Misread(q[1..][i - 1..], ModeAt(q[1..], next, i - 1));
        }
      }
      assert q[0..] == q && ModeAt(q, mode, 0) == mode;
    }
  }

  // ---- A number is read back ----

  /** A longer digit string that starts with a positive number denotes a larger number. */
  lemma {:induction false} MoreDigitsMore(d: string, more: string)
    requires AllDigits(d) && AllDigits(more) && more != [] && Value(d) > 0
    ensures AllDigits(d + more) && Value(d + more) > Value(d)
    decreases |more|
  {
    var s := d + more;
    assert s[..|s| - 1] == d + more[..|more| - 1];
    if |more| == 1 {
      assert d + more[..0] == d;
    } else {
      MoreDigitsMore(d, more[..|more| - 1]);
    }
  }

  lemma {:induction false} DigitRunPrefix(d: string, rest: string)
    requires AllDigits(d)
    ensures DigitRun(d + rest) == |d| + DigitRun(rest)
    decreases |d|
  {
    if d == [] {
      assert d + rest == rest;
    } else {
      assert (d + rest)[1..] == d[1..] + rest;
      DigitRunPrefix(d[1..], rest);
    }
  }

  lemma ReadDigitsAlone(d: string, rest: string)
    requires d != [] && AllDigits(d) && DigitRun(rest) == 0
    ensures
      ReadDollar("$" + d + rest, Code)
      == [if rest != [] && IsIdentStart(rest[0]) then Junk else Arg(Value(d))] + ReadDollar(rest, Code)
  {
    var q := "$" + d + rest;
    assert q[1..] == d + rest;
    DigitRunPrefix(d, rest);
    assert q[1..][..|d|] == d && q[1 + |d|..] == rest;
  }

  lemma RegroupDigits(a: string, b: string, c: string, d: string)
    ensures a + b + (c + d) == a + (b + c) + d
  {
  }

  lemma RunSplit(rest: string)
    ensures
      var run := DigitRun(rest);
      rest == rest[..run] + rest[run..] && AllDigits(rest[..run]) && DigitRun(rest[run..]) == 0
  {
  }

  lemma ReadDigitsFollowed(d: string, more: string, tail: string)
    requires AllDigits(d) && Value(d) > 0 && AllDigits(more) && more != [] && DigitRun(tail) == 0
    ensures
      var read := ReadDollar("$" + d + (more + tail), Code);
      read != [] && read[0] != Arg(Value(d))
  {
    MoreDigitsMore(d, more);
    ReadDigitsAlone(d + more, tail);
    RegroupDigits("$", d, more, tail);
    var first := if tail != [] && IsIdentStart(tail[0]) then Junk else Arg(Value(d + more));
    assert ([first] + ReadDollar(tail, Code))[0] == first;
  }

  /** Reading a placeholder back: the number, unless a digit or a letter follows. */
  lemma ReadBackPlaceholder(n: nat, rest: string)
    requires n > 0
    ensures
      var read := ReadDollar("$" + Itoa(n) + rest, Code);
      if rest != [] && (IsDigit(rest[0]) || IsIdentStart(rest[0])) then read != [] && read[0] != Arg(n)
      else read == [Arg(n)] + ReadDollar(rest, Code)
  {
    if DigitRun(rest) == 0 {
      ReadDigitsAlone(Itoa(n), rest);
    } else {
      RunSplit(rest);
      ReadDigitsFollowed(Itoa(n), rest[..DigitRun(rest)], rest[DigitRun(rest)..]);
    }
  }

  // ---- One character at a time ----

  /** How a rebound query starts. */
  lemma ReboundHead(q: string, seen: nat)
    ensures q == [] ==> Rebound(q, seen) == []
    ensures q != [] ==> Rebound(q, seen) != [] && Rebound(q, seen)[0] == if q[0] == '?' then '$' else q[0]
  {
    if q != [] && q[0] == '?' {
      Append3("$", Itoa(seen + 1), Rebound(q[1..], seen + 1));
    }
  }

  /** What stands right after a character of the query stays there, except that `?` becomes `$`. */
  lemma ReboundNext(q: string, seen: nat)
    requires q != [] && q[0] != '?'
    ensures
      var r := Rebound(q, seen);
      && r[0] == q[0] && r[1..] == Rebound(q[1..], seen) && (|r| > 1 <==> |q| > 1)
      && (|q| > 1 ==> r[1] == if q[1] == '?' then '$' else q[1])
  {
    ReboundHead(q[1..], seen);
    assert Rebound(q, seen) == [q[0]] + Rebound(q[1..], seen);
  }

  /** A character that is no placeholder: it is read alike, and the rest decides, unless it is misread. */
  lemma OtherCharacter(q: string, mode: Mode, seen: nat)
    requires q != [] && q[0] != '?'
    ensures
      var r := Rebound(q, seen);
      if Misread(q, mode) then ReadDollar(r, mode) != [] && ReadDollar(r, mode)[0] != Text(q[0])
      else ReadDollar(r, mode) == [Text(q[0])] + ReadDollar(Rebound(q[1..], seen), After(mode, q))
  {
    ReboundNext(q, seen);
    var r := Rebound(q, seen);
    assert After(mode, r) == After(mode, q);
  }

  /** A placeholder in code; elsewhere a `?` is read as its own text or as an argument, and `$` as text. */
  lemma PlaceholderCharacter(q: string, mode: Mode, seen: nat)
    requires q != [] && q[0] == '?'
    ensures
      var r := Rebound(q, seen);
      var question := if mode.Code? || mode.Word? then Arg(seen + 1) else Text('?');
      if Misread(q, mode) then ReadDollar(r, mode) != [] && ReadDollar(r, mode)[0] != question
      else ReadDollar(r, mode) == [question] + ReadDollar(Rebound(q[1..], seen + 1), Code)
  {
    var rest := Rebound(q[1..], seen + 1);
    ReboundHead(q[1..], seen + 1);
    var r := "$" + Itoa(seen + 1) + rest;
    assert r[0] == '$';
    if mode.Code? {
      ReadBackPlaceholder(seen + 1, rest);
    }
  }

  /** rebind preserves meaning, with any number of placeholders, exactly when no character is misread. */
  lemma {:induction false} RebindPreservesMeaningIff(q: string, mode: Mode, seen: nat)
    ensures ReadDollar(Rebound(q, seen), mode) == ReadQuestion(q, mode, seen) <==> !Ambiguous(q, mode)
    decreases |q|
  {
    if q == [] {
    } else if q[0] == '?' {
      RebindPreservesMeaningIff(q[1..], Code, seen + 1);
      PlaceholderStep(q, mode, seen);
    } else {
      RebindPreservesMeaningIff(q[1..], After(mode, q), seen);
      OtherStep(q, mode, seen);
    }
  }

  lemma MisreadPlaceholder(q: string, mode: Mode, seen: nat)
    requires q != [] && q[0] == '?' && Misread(q, mode)
    ensures ReadDollar(Rebound(q, seen), mode) != ReadQuestion(q, mode, seen)
  {
    PlaceholderCharacter(q, mode, seen);
    var question := if mode.Code? || mode.Word? then Arg(seen + 1) else Text('?');
    assert ReadQuestion(q, mode, seen)[0] == question;
  }

  lemma ProperPlaceholder(q: string, seen: nat)
    requires q != [] && q[0] == '?' && !Misread(q, Code)
    ensures
      ReadDollar(Rebound(q, seen), Code) == ReadQuestion(q, Code, seen)
      <==> ReadDollar(Rebound(q[1..], seen + 1), Code) == ReadQuestion(q[1..], Code, seen + 1)
  {
    PlaceholderCharacter(q, Code, seen);
    SameTail(Arg(seen + 1), ReadDollar(Rebound(q[1..], seen + 1), Code), ReadQuestion(q[1..], Code, seen + 1));
  }

  lemma PlaceholderStep(q: string, mode: Mode, seen: nat)
    requires q != [] && q[0] == '?'
    requires ReadDollar(Rebound(q[1..], seen + 1), Code) == ReadQuestion(q[1..], Code, seen + 1)
        <==> !Ambiguous(q[1..], Code)
    ensures ReadDollar(Rebound(q, seen), mode) == ReadQuestion(q, mode, seen) <==> !Ambiguous(q, mode)
  {
    if Misread(q, mode) {
      MisreadPlaceholder(q, mode, seen);
    } else {
      ProperPlaceholder(q, seen);
      assert After(Code, q) == Code;
    }
  }

  lemma OtherStep(q: string, mode: Mode, seen: nat)
    requires q != [] && q[0] != '?'
    requires
      var next := After(mode, q);
      ReadDollar(Rebound(q[1..], seen), next) == ReadQuestion(q[1..], next, seen) <==> !Ambiguous(q[1..], next)
    ensures ReadDollar(Rebound(q, seen), mode) == ReadQuestion(q, mode, seen) <==> !Ambiguous(q, mode)
  {
    var next := After(mode, q);
    OtherCharacter(q, mode, seen);
    SameTail(Text(q[0]), ReadDollar(Rebound(q[1..], seen), next), ReadQuestion(q[1..], next, seen));
  }

  lemma SameTail(head: Part, a: seq<Part>, b: seq<Part>)
    ensures [head] + a == [head] + b <==> a == b
  {
    assert ([head] + a)[1..] == a && ([head] + b)[1..] == b;
  }

  /** The translator knows no quotes: a `?` in a string is text on both databases, and changes. */
  lemma QuotedPlaceholderChanges()
    ensures Rebound("'?'", 0) == "'$1'" && Ambiguous("'?'", Code)
    ensures ReadQuestion("'?'", Code, 0) == [Text('\''), Text('?'), Text('\'')]
    ensures ReadDollar("'$1'", Code) == [Text('\''), Text('$'), Text('1'), Text('\'')]
  {
    var q := "'?'";
    assert q[1..] == "?'" && q[1..][1..] == "'" && q[1..][1..][1..] == "";
    assert Itoa(1) == "1";
    assert Rebound("?'", 0) == "$" + Itoa(1) + Rebound("'", 1);
    assert Misread("?'", Within('\''));
    var r := "'$1'";
    assert r[1..] == "$1'" && r[1..][1..] == "1'" && r[1..][1..][1..] == "'" && r[1..][1..][1..][1..] == "";
  }
}
