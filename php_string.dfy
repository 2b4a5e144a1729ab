/** The PHP string functions the two request classes rely on, with PHP 8
    semantics, over `string` (one `char` per byte of the log files). */
module PhpString {

  /** The characters `trim` removes by default: space, tab, line feed,
      carriage return, NUL and vertical tab. */
  predicate IsTrimChar(c: char) {
    c == ' ' || c == '\t' || c == '\n' || c == '\r' || c == '\0' || c == '\U{B}'
  }

  function TrimLeft(s: string): (r: string)
    ensures |r| <= |s| && r == s[|s| - |r|..]
    ensures r == [] || !IsTrimChar(r[0])
    ensures forall i :: 0 <= i < |s| - |r| ==> IsTrimChar(s[i])
  {
    if s != [] && IsTrimChar(s[0]) then TrimLeft(s[1..]) else s
  }

  function TrimRight(s: string): (r: string)
    ensures |r| <= |s| && r == s[..|r|]
    ensures r == [] || !IsTrimChar(r[|r| - 1])
    ensures forall i :: |r| <= i < |s| ==> IsTrimChar(s[i])
  {
    if s != [] && IsTrimChar(s[|s| - 1]) then TrimRight(s[..|s| - 1]) else s
  }

  /** `trim($s)`. */
  function Trim(s: string): string {
    TrimRight(TrimLeft(s))
  }

  /** A string `trim` leaves alone. */
  predicate TrimStable(s: string) {
    s == [] || (!IsTrimChar(s[0]) && !IsTrimChar(s[|s| - 1]))
  }

  lemma TrimOfStable(s: string)
    requires TrimStable(s)
    ensures Trim(s) == s
  {
  }

  /** Trailing trim characters after a string that does not end in one are
      exactly what `trim` takes away. */
  lemma {:induction false} TrimRightDropsTail(s: string, tail: string)
    requires s == [] || !IsTrimChar(s[|s| - 1])
    requires forall i :: 0 <= i < |tail| ==> IsTrimChar(tail[i])
    ensures TrimRight(s + tail) == s
    decreases |tail|
  {
    if tail != [] {
      var t := tail[..|tail| - 1];
      assert (s + tail)[..|s + tail| - 1] == s + t;
      TrimRightDropsTail(s, t);
    }
  }

  /** `trim` of a trim-stable text followed by a line feed is that text. */
  lemma TrimLine(s: string)
    requires TrimStable(s)
    ensures Trim(s + "\n") == s
  {
    if s == [] {
      assert TrimLeft("\n") == [];
    } else {
      assert TrimLeft(s + "\n") == s + "\n";
      TrimRightDropsTail(s, "\n");
    }
  }

  /** Position of the first `c` in `s`, or `|s|` when there is none. */
  function IndexOf(s: string, c: char): (i: nat)
    ensures i <= |s|
    ensures i < |s| ==> s[i] == c
    ensures forall j :: 0 <= j < i ==> s[j] != c
  {
    if s == [] then 0 else if s[0] == c then 0 else 1 + IndexOf(s[1..], c)
  }

  lemma IndexOfJoin(x: string, c: char, y: string)
    requires c !in x
    ensures IndexOf(x + [c] + y, c) == |x|
  {
    var s := x + [c] + y;
    assert s[|x|] == c;
    assert forall j :: 0 <= j < |x| ==> s[j] == x[j];
  }

  /** `explode($c, $s)`: the pieces between the occurrences of `c`. */
  function Split(s: string, c: char): (parts: seq<string>)
    ensures |parts| >= 1
    decreases |s|
  {
    var i := IndexOf(s, c);
    if i == |s| then [s] else [s[..i]] + Split(s[i + 1..], c)
  }

  lemma SplitNone(s: string, c: char)
    requires c !in s
    ensures Split(s, c) == [s]
  {
  }

  lemma SplitJoin(x: string, c: char, y: string)
    requires c !in x
    ensures Split(x + [c] + y, c) == [x] + Split(y, c)
  {
    var s := x + [c] + y;
    IndexOfJoin(x, c, y);
    assert s[..|x|] == x;
    assert s[|x| + 1..] == y;
  }

  /** `strpos($s, $p) === 0`. The empty needle matches at 0. */
  predicate StartsWith(s: string, p: string) {
    |p| <= |s| && s[..|p|] == p
  }

  /** A prefix of `x` is a prefix of everything that starts with `x`. */
  lemma StartsWithAppend(x: string, y: string, p: string)
    requires StartsWith(x, p)
    ensures StartsWith(x + y, p)
  {
    assert (x + y)[..|p|] == x[..|p|];
  }

  /** `strpos($s, $sub) !== false`. */
  predicate Contains(s: string, sub: string)
    decreases |s|
  {
    StartsWith(s, sub) || (s != [] && Contains(s[1..], sub))
  }

  lemma {:induction false} ContainsSuffix(x: string, s: string, sub: string)
    requires Contains(s, sub)
    ensures Contains(x + s, sub)
    decreases |x|
  {
    if x != [] {
      assert (x + s)[1..] == x[1..] + s;
      ContainsSuffix(x[1..], s, sub);
      assert Contains((x + s)[1..], sub);
    } else {
      assert x + s == s;
    }
  }

  lemma ContainsAt(x: string, sub: string, y: string)
    ensures Contains(x + sub + y, sub)
  {
    assert StartsWith(sub + y, sub);
    ContainsSuffix(x, sub + y, sub);
    assert x + sub + y == x + (sub + y);
  }

  /** `substr($s, $n)` for `$n >= 0`: empty when `s` is shorter than `n`. */
  function DropFirst(s: string, n: nat): string {
    if n <= |s| then s[n..] else ""
  }

  /** `substr($s, 0, -$n)`: empty when `s` is shorter than `n`. */
  function DropLast(s: string, n: nat): string {
    if n <= |s| then s[..|s| - n] else ""
  }

  /** Digits of a natural number, most significant first. */
  function NatToDec(n: nat): (s: string)
    ensures |s| >= 1
    ensures forall i :: 0 <= i < |s| ==> '0' <= s[i] <= '9'
    ensures n >= 10 ==> s[0] != '0'
  {
    if n < 10 then [Digit(n)] else NatToDec(n / 10) + [Digit(n % 10)]
  }

  function Digit(d: nat): (c: char)
    requires d < 10
  {
    ['0', '1', '2', '3', '4', '5', '6', '7', '8', '9'][d]
  }

  /** `"{$n}"` for an integer. */
  function IntToDec(n: int): string {
    if n < 0 then "-" + NatToDec(-n) else NatToDec(n)
  }

  /** A decimal never holds a colon, a line feed or a trim character. */
  lemma DecPlain(n: int)
    ensures ':' !in IntToDec(n) && '\n' !in IntToDec(n)
    ensures forall i :: 0 <= i < |IntToDec(n)| ==> !IsTrimChar(IntToDec(n)[i])
  {
  }

  /** Concatenation of a list of strings. */
  function Flatten(ss: seq<string>): string {
    if ss == [] then "" else ss[0] + Flatten(ss[1..])
  }

  lemma {:induction false} FlattenSnoc(ss: seq<string>, x: string)
    ensures Flatten(ss + [x]) == Flatten(ss) + x
  {
    if ss != [] {
      assert (ss + [x])[1..] == ss[1..] + [x];
      FlattenSnoc(ss[1..], x);
    }
  }

  /** Length of the line `fgets` reads from the front of `s`: up to and
      including the first line feed, or all of `s`. */
  function LineLength(s: string): (n: nat)
    requires s != []
    ensures 0 < n <= |s|
  {
    var i := IndexOf(s, '\n');
    if i < |s| then i + 1 else |s|
  }

  /** The successive results of `fgets` on a file holding `s`. */
  function Lines(s: string): (ls: seq<string>)
    decreases |s|
  {
    if s == [] then [] else
      var n := LineLength(s);
      [s[..n]] + Lines(s[n..])
  }

  /** Reading the lines back in order gives the whole file. */
  lemma {:induction false} FlattenLines(s: string)
    ensures Flatten(Lines(s)) == s
    decreases |s|
  {
    if s != [] {
      var n := LineLength(s);
      LinesUnfold(s);
      FlattenCons(s[..n], Lines(s[n..]));
      FlattenLines(s[n..]);
      assert s[..n] + s[n..] == s;
    }
  }

  lemma FlattenCons(x: string, t: seq<string>)
    ensures Flatten([x] + t) == x + Flatten(t)
  {
    assert ([x] + t)[1..] == t;
  }

  /** A file that is empty or ends in a line feed: appending to it starts a
      new line. */
  predicate EndsLine(s: string) {
    s == [] || s[|s| - 1] == '\n'
  }

  lemma {:induction false} LinesAppend(a: string, b: string)
    requires EndsLine(a)
    ensures Lines(a + b) == Lines(a) + Lines(b)
    decreases |a|
  {
    if a != [] {
      var n := LineLength(a);
      LinesAppendStep(a, b);
      LinesAppend(a[n..], b);
      ConsAssoc(a[..n], Lines(a[n..]), Lines(b));
    } else {
      assert a + b == b;
    }
  }

  /** The first line of `a + b` is the first line of `a`, and the rest is
      read from the rest of `a` followed by `b`. */
  lemma LinesAppendStep(a: string, b: string)
    requires a != [] && EndsLine(a)
    ensures Lines(a) == [a[..LineLength(a)]] + Lines(a[LineLength(a)..])
    ensures Lines(a + b) == [a[..LineLength(a)]] + Lines(a[LineLength(a)..] + b)
    ensures EndsLine(a[LineLength(a)..])
  {
    var n := LineLength(a);
    LineLengthAppend(a, b);
    LinesUnfold(a + b);
    SliceAppend(a, b, n);
    EndsLineRest(a, n);
  }

  lemma SliceAppend(a: string, b: string, n: nat)
    requires n <= |a|
    ensures (a + b)[..n] == a[..n] && (a + b)[n..] == a[n..] + b
  {
  }

  lemma EndsLineRest(a: string, n: nat)
    requires n <= |a| && EndsLine(a)
    ensures EndsLine(a[n..])
  {
    if n < |a| {
      assert a[n..][|a[n..]| - 1] == a[|a| - 1];
    }
  }

  lemma LinesUnfold(s: string)
    requires s != []
    ensures Lines(s) == [s[..LineLength(s)]] + Lines(s[LineLength(s)..])
  {
  }

  /** A file that ends a line, and text after it: the first line is the
      same. */
  lemma LineLengthAppend(a: string, b: string)
    requires a != [] && EndsLine(a)
    ensures LineLength(a + b) == LineLength(a)
  {
    IndexOfFound(a, '\n', |a| - 1);
    IndexOfAppend(a, b, '\n');
  }

  lemma {:induction false} IndexOfFound(s: string, c: char, k: nat)
    requires k < |s| && s[k] == c
    ensures IndexOf(s, c) <= k
    decreases k
  {
    if s[0] != c {
      assert s[1..][k - 1] == c;
      IndexOfFound(s[1..], c, k - 1);
    }
  }

  lemma {:induction false} IndexOfAppend(a: string, b: string, c: char)
    requires IndexOf(a, c) < |a|
    ensures IndexOf(a + b, c) == IndexOf(a, c)
    decreases |a|
  {
    if a[0] != c {
      assert (a + b)[1..] == a[1..] + b;
      IndexOfAppend(a[1..], b, c);
    }
  }

  /** A line without a line feed, then a line feed, is one line. */
  lemma OneLine(x: string)
    requires '\n' !in x
    ensures Lines(x + "\n") == [x + "\n"]
  {
    var s := x + "\n";
    assert s[|x|] == '\n';
    assert forall j :: 0 <= j < |x| ==> s[j] == x[j];
    assert IndexOf(s, '\n') == |x|;
    assert LineLength(s) == |s|;
    assert s[..|s|] == s;
    assert Lines(s[|s|..]) == [];
  }

  /** Text without a line feed in front of `s` joins `s`'s first line. */
  lemma LinesPrefix(p: string, s: string)
    requires '\n' !in p && s != []
    ensures Lines(p + s) == [p + Lines(s)[0]] + Lines(s)[1..]
  {
    var n := LineLength(s);
    var first, rest := s[..n], s[n..];
    LinesUnfold(s);
    ConsParts(first, Lines(rest));
    assert Lines(s)[0] == first && Lines(s)[1..] == Lines(rest);
    LineLengthPrefix(p, s);
    SlicePrefix(p, s, n);
    assert |p + first| == |p| + n;
    LinesAt(p + s, p + first, rest);
  }

  /** A file whose first line is `first` and whose rest is `r`. */
  lemma LinesAt(t: string, first: string, r: string)
    requires t != [] && LineLength(t) == |first|
    requires t[..|first|] == first && t[|first|..] == r
    ensures Lines(t) == [first] + Lines(r)
  {
    LinesUnfold(t);
  }

  lemma ConsParts<T>(x: T, a: seq<T>)
    ensures ([x] + a)[0] == x && ([x] + a)[1..] == a
  {
  }

  lemma LineLengthPrefix(p: string, s: string)
    requires '\n' !in p && s != []
    ensures LineLength(p + s) == |p| + LineLength(s)
  {
    IndexOfPrefix(p, s, '\n');
  }

  lemma {:induction false} IndexOfPrefix(p: string, s: string, c: char)
    requires c !in p
    ensures IndexOf(p + s, c) == |p| + IndexOf(s, c)
    decreases |p|
  {
    if p == [] {
      assert p + s == s;
    } else {
      assert (p + s)[0] == p[0] && (p + s)[1..] == p[1..] + s;
      IndexOfPrefix(p[1..], s, c);
    }
  }

  lemma SlicePrefix(p: string, s: string, n: nat)
    requires n <= |s|
    ensures (p + s)[..|p| + n] == p + s[..n] && (p + s)[|p| + n..] == s[n..]
  {
  }

  /** A record line: a file that ends a line, a line-feed-free prefix, a
      text that ends in a line feed, and whatever follows. The prefix joins
      the first line of the text. */
  lemma LinesAround(c: string, p: string, b: string, d: string)
    requires EndsLine(c) && '\n' !in p && EndsLine(b) && b != []
    ensures Lines(c + p + b + d) == Lines(c) + [p + Lines(b)[0]] + Lines(b)[1..] + Lines(d)
  {
    Assoc4(c, p, b, d);
    LinesAppend(c, p + (b + d));
    LinesJoinFirst(p, b, d);
    Assoc4(Lines(c), [p + Lines(b)[0]], Lines(b)[1..], Lines(d));
  }

  lemma LinesJoinFirst(p: string, b: string, d: string)
    requires '\n' !in p && EndsLine(b) && b != []
    ensures Lines(p + (b + d)) == [p + Lines(b)[0]] + Lines(b)[1..] + Lines(d)
  {
    LinesNonEmpty(b);
    LinesAppend(b, d);
    LinesPrefix(p, b + d);
    JoinFirst(p, Lines(b), Lines(d), Lines(b + d));
  }

  /** The rest of a joined list after its first element, regrouped. */
  lemma JoinFirst(p: string, a: seq<string>, b: seq<string>, s: seq<string>)
    requires a != [] && s == a + b
    ensures [p + s[0]] + s[1..] == [p + a[0]] + a[1..] + b
  {
    assert s[0] == a[0];
    assert s[1..] == a[1..] + b;
  }

  lemma LinesNonEmpty(s: string)
    requires s != []
    ensures Lines(s) != [] && Lines(s)[0] == s[..LineLength(s)]
  {
  }

  /** A file that starts with a line-feed-free text starts its first line
      with it. */
  lemma FirstLineStarts(d: string, pre: string)
    requires d != [] && StartsWith(d, pre) && '\n' !in pre
    ensures Lines(d) != [] && StartsWith(Lines(d)[0], pre)
  {
    LinesNonEmpty(d);
  }

  /** `s` without everything up to and including its first colon, or the
      empty string when it has none. */
  function AfterColon(s: string): (r: string)
    ensures |r| <= |s|
  {
    var i := IndexOf(s, ':');
    if i < |s| then s[i + 1..] else ""
  }

  lemma AfterColonJoin(x: string, y: string)
    requires ':' !in x
    ensures AfterColon(x + ":" + y) == y
  {
    IndexOfJoin(x, ':', y);
    assert (x + ":" + y)[|x| + 1..] == y;
  }

  /** Where the pieces of `a + [x] + b + e` stand. */
  lemma Pieces<T>(a: seq<T>, x: T, b: seq<T>, e: seq<T>)
    ensures var s := a + [x] + b + e;
            |a| < |s| && s[|a|] == x && s[|a| + 1..] == b + e && s[..|a|] == a
  {
  }

  /* Proof helpers: regroupings of sequence concatenations that the solver
     does not find on its own. They state no property of the library. */

  lemma ConsAssoc<T>(x: T, a: seq<T>, b: seq<T>)
    ensures [x] + (a + b) == ([x] + a) + b
  {
  }

  lemma Assoc4<T>(a: seq<T>, b: seq<T>, c: seq<T>, d: seq<T>)
    ensures a + b + c + d == a + (b + (c + d))
    ensures a + (b + c + d) == a + b + c + d
  {
  }

  /** Two middle pieces `r + nl` that are the same sequence as `h + b`. */
  lemma RegroupSplit<T>(c: seq<T>, r: seq<T>, nl: seq<T>, h: seq<T>, b: seq<T>, d: seq<T>)
    requires r + nl == h + b
    ensures c + r + nl + d == c + h + b + d
  {
    assert c + r + nl == c + (r + nl);
  }

  /** Moving the boundary between `h + t` and `nl` to `h` and `t + nl`. */
  lemma RegroupMiddle<T>(c: seq<T>, h: seq<T>, t: seq<T>, nl: seq<T>, d: seq<T>)
    ensures c + (h + t) + nl + d == c + h + (t + nl) + d
  {
  }

  /** Dropping an empty piece. */
  lemma DropEmpty<T>(a: seq<T>, m: seq<T>, e: seq<T>, z: seq<T>)
    requires e == []
    ensures a + m + e + z == a + m + z
  {
  }
}
