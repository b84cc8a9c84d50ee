/** String building blocks shared by the renderer: separator joins, Ruby's
    decimal and zero-padded number formatting, and the quote-doubling rule
    that PostgreSQL uses for string literals ('...') and identifiers ("..."). */
module Text {

  datatype Option<+T> = None | Some(value: T)

  /** `parts` joined with `sep` between neighbours (Ruby's `Array#join`),
      built from the back so that appending one more part adds one separator. */
  function Join(parts: seq<string>, sep: string): string
  {
    if |parts| == 0 then ""
    else if |parts| == 1 then parts[0]
    else Join(parts[..|parts| - 1], sep) + sep + parts[|parts| - 1]
  }

  /** Every part followed by `term`. */
  function Terminated(parts: seq<string>, term: string): string
  {
    if |parts| == 0 then "" else Terminated(parts[..|parts| - 1], term) + parts[|parts| - 1] + term
  }

  /** Number of occurrences of `c` in `s`. */
  function Occurrences(s: string, c: char): nat
  {
    if |s| == 0 then 0 else Occurrences(s[..|s| - 1], c) + (if s[|s| - 1] == c then 1 else 0)
  }

  /** Concatenation regroups freely. */
  lemma AppendAssoc(a: string, b: string, c: string)
    ensures a + (b + c) == a + b + c
  {
  }

  /** Sum of the occurrences of `c` over every part. */
  function OccurrencesIn(parts: seq<string>, c: char): nat
  {
    if |parts| == 0 then 0 else OccurrencesIn(parts[..|parts| - 1], c) + Occurrences(parts[|parts| - 1], c)
  }

  lemma {:induction false} OccurrencesAppend(a: string, b: string, c: char)
    ensures Occurrences(a + b, c) == Occurrences(a, c) + Occurrences(b, c)
    decreases |b|
  {
    if |b| == 0 {
      assert a + b == a;
    } else {
      assert (a + b)[..|a + b| - 1] == a + b[..|b| - 1];
      OccurrencesAppend(a, b[..|b| - 1], c);
    }
  }

  lemma {:induction false} OccurrencesAbsent(s: string, c: char)
    requires c !in s
    ensures Occurrences(s, c) == 0
    decreases |s|
  {
    if |s| > 0 {
      assert c !in s[..|s| - 1];
      OccurrencesAbsent(s[..|s| - 1], c);
    }
  }

  lemma {:induction false} OccurrencesInAbsent(parts: seq<string>, c: char)
    requires forall i :: 0 <= i < |parts| ==> c !in parts[i]
    ensures OccurrencesIn(parts, c) == 0
    decreases |parts|
  {
    if |parts| > 0 {
      OccurrencesInAbsent(parts[..|parts| - 1], c);
      OccurrencesAbsent(parts[|parts| - 1], c);
    }
  }

  /** Joining n >= 1 parts with a one-character separator adds exactly n - 1
      occurrences of that character to the ones already inside the parts. */
  lemma {:induction false} JoinSeparatorCount(parts: seq<string>, c: char)
    requires |parts| >= 1
    ensures Occurrences(Join(parts, [c]), c) == OccurrencesIn(parts, c) + |parts| - 1
  {
    if |parts| == 1 {
      assert OccurrencesIn(parts, c) == OccurrencesIn(parts[..0], c) + Occurrences(parts[0], c);
    } else {
      var init := parts[..|parts| - 1];
      var last := parts[|parts| - 1];
      JoinSeparatorCount(init, c);
      OccurrencesAppend(Join(init, [c]), [c], c);
      OccurrencesAppend(Join(init, [c]) + [c], last, c);
      assert Occurrences([c], c) == 1 by {
        assert [c][..0] == [];
      }
    }
  }

  /** `s` cut at every `c`, empty pieces kept (Ruby's `s.split(c, -1)`),
      built from the back like `Join`. */
  function Split(s: string, c: char): (r: seq<string>)
    ensures |r| >= 1
    decreases |s|
  {
    if |s| == 0 then [""]
    else
      var init := Split(s[..|s| - 1], c);
      if s[|s| - 1] == c then init + [""]
      else init[..|init| - 1] + [init[|init| - 1] + [s[|s| - 1]]]
  }

  /** Text without the separator extends the last piece and cuts nothing. */
  lemma {:induction false} SplitAppend(s: string, t: string, c: char)
    requires c !in t
    ensures var p := Split(s, c);
            Split(s + t, c) == p[..|p| - 1] + [p[|p| - 1] + t]
    decreases |t|
  {
    var p := Split(s, c);
    if |t| == 0 {
      assert s + t == s;
      assert p[|p| - 1] + t == p[|p| - 1];
      assert p[..|p| - 1] + [p[|p| - 1]] == p;
    } else {
      var t' := t[..|t| - 1];
      assert (s + t)[..|s + t| - 1] == s + t';
      assert (s + t)[|s + t| - 1] == t[|t| - 1];
      SplitAppend(s, t', c);
      assert p[|p| - 1] + t' + [t[|t| - 1]] == p[|p| - 1] + t;
    }
  }

  /** Splitting undoes joining, provided no part holds the separator: the
      pieces are exactly the parts, in order. */
  lemma {:induction false} SplitJoin(parts: seq<string>, c: char)
    requires |parts| >= 1
    requires forall i :: 0 <= i < |parts| ==> c !in parts[i]
    ensures Split(Join(parts, [c]), c) == parts
    decreases |parts|
  {
    if |parts| == 1 {
      SplitAppend("", parts[0], c);
      assert "" + parts[0] == parts[0];
    } else {
      var init := parts[..|parts| - 1];
      var last := parts[|parts| - 1];
      SplitJoin(init, c);
      var s := Join(init, [c]) + [c];
      assert s[..|s| - 1] == Join(init, [c]);
      assert Split(s, c) == init + [""];
      SplitAppend(s, last, c);
      assert (init + [""])[..|init|] == init;
      assert "" + last == last;
      assert init + [last] == parts;
    }
  }

  /** A join of at least one part begins with the first part. */
  lemma {:induction false} JoinStartsWithFirst(parts: seq<string>, sep: string)
    ensures |parts| >= 1 ==> |parts[0]| <= |Join(parts, sep)| && Join(parts, sep)[..|parts[0]|] == parts[0]
    decreases |parts|
  {
    if |parts| >= 2 {
      var init := parts[..|parts| - 1];
      JoinStartsWithFirst(init, sep);
      assert init[0] == parts[0];
      var j := Join(init, sep);
      assert Join(parts, sep) == j + sep + parts[|parts| - 1];
      assert (j + sep + parts[|parts| - 1])[..|parts[0]|] == j[..|parts[0]|];
    }
  }

  lemma JoinAppend(parts: seq<string>, p: string, sep: string)
    ensures Join(parts + [p], sep) == if |parts| == 0 then p else Join(parts, sep) + sep + p
  {
    assert (parts + [p])[..|parts|] == parts;
  }

  // ---------------------------------------------------------------- numbers

  function DigitChar(d: nat): char
    requires d < 10
  {
    "0123456789"[d]
  }

  /** Decimal digits of a natural number, most significant first. */
  function NatToString(n: nat): (s: string)
    ensures |s| >= 1
    ensures forall i :: 0 <= i < |s| ==> '0' <= s[i] <= '9'
  {
    if n < 10 then [DigitChar(n)] else NatToString(n / 10) + [DigitChar(n % 10)]
  }

  /** Ruby's `Integer#to_s`: a leading '-' for negative numbers. */
  function IntToString(i: int): string
  {
    if i < 0 then "-" + NatToString(-i) else NatToString(i)
  }

  /** A printed integer holds only a sign and digits: no separator character. */
  lemma IntTextHasNoComma(i: int)
    ensures ',' !in IntToString(i)
  {
    var digits := NatToString(if i < 0 then -i else i);
    assert forall k :: 0 <= k < |digits| ==> digits[k] != ',';
    if i < 0 {
      assert IntToString(i) == "-" + digits;
      assert forall k :: 0 <= k < |IntToString(i)| ==> IntToString(i)[k] != ',';
    }
  }

  /** `s` left-padded with '0' to at least `width` characters (`%0Nd`). */
  function ZeroPad(s: string, width: nat): (r: string)
    ensures |r| == if |s| < width then width else |s|
    ensures |s| <= |r| && r[|r| - |s|..] == s
    decreases width - |s|
  {
    if |s| < width then ZeroPad("0" + s, width) else s
  }

  // ---------------------------------------------------------------- quoting

  /** `s` with every `q` doubled: the escape of PostgreSQL quoted tokens. */
  function Doubled(q: char, s: string): (r: string)
    ensures |r| >= |s|
  {
    if |s| == 0 then ""
    else if s[0] == q then [q, q] + Doubled(q, s[1..])
    else [s[0]] + Doubled(q, s[1..])
  }

  /** Text without the quote character is left as it is. */
  lemma {:induction false} DoubledWithoutQuote(q: char, s: string)
    requires q !in s
    ensures Doubled(q, s) == s
  {
    if |s| > 0 {
      assert q !in s[1..];
      DoubledWithoutQuote(q, s[1..]);
      assert [s[0]] + s[1..] == s;
    }
  }

  /** `s` as a quoted token: `q`, the doubled text, `q`. */
  function Enclosed(q: char, s: string): (r: string)
    ensures |r| >= 2 && r[0] == q && r[|r| - 1] == q
  {
    [q] + Doubled(q, s) + [q]
  }

  /** How a SQL lexer reads the body of a quoted token (after the opening
      `q`): a doubled `q` stands for one `q`, a single `q` closes the token.
      Gives the decoded text and what follows the closing quote. */
  function ReadQuotedBody(q: char, t: string): Option<(string, string)>
  {
    if |t| == 0 then None
    else if t[0] == q then
      if |t| >= 2 && t[1] == q then
        match ReadQuotedBody(q, t[2..])
        case None => None
        case Some(p) => Some(([q] + p.0, p.1))
      else Some(("", t[1..]))
    else
      match ReadQuotedBody(q, t[1..])
      case None => None
      case Some(p) => Some(([t[0]] + p.0, p.1))
  }

  /** A quoted token cannot be broken out of: reading it back gives exactly
      the original text, and whatever follows is left untouched, whatever the
      text contains. */
  lemma {:induction false} ReadBackEnclosed(q: char, s: string, rest: string)
    requires |rest| == 0 || rest[0] != q
    ensures var e := Enclosed(q, s); ReadQuotedBody(q, e[1..] + rest) == Some((s, rest))
  {
    var e := Enclosed(q, s);
    assert e[1..] == Doubled(q, s) + [q];
    ReadBodyOfDoubled(q, s, rest);
  }

  lemma {:induction false} ReadBodyOfDoubled(q: char, s: string, rest: string)
    requires |rest| == 0 || rest[0] != q
    ensures ReadQuotedBody(q, Doubled(q, s) + [q] + rest) == Some((s, rest))
    decreases |s|
  {
    var t := Doubled(q, s) + [q] + rest;
    if |s| == 0 {
      assert t == [q] + rest;
      assert t[1..] == rest;
    } else if s[0] == q {
      ReadBodyOfDoubled(q, s[1..], rest);
      assert t[2..] == Doubled(q, s[1..]) + [q] + rest;
      assert [q] + s[1..] == s;
    } else {
      ReadBodyOfDoubled(q, s[1..], rest);
      assert t[1..] == Doubled(q, s[1..]) + [q] + rest;
      assert [s[0]] + s[1..] == s;
    }
  }
}
