/** String handling shared by both versions of the pool tracker: the
    `_.find` prefix search over the command table, `split(' ')`, and the
    decimal conversions behind `toString(10)`, `isNaN` and `parseInt`. */
module Text {

  datatype Option<+T> = None | Some(value: T)

  // ---------------------------------------------------------------------
  // Prefix search (`_.find(CMD, cmd => content.indexOf(cmd) === 0)`)
  // ---------------------------------------------------------------------

  /** The first entry of `table`, in declaration order, that `content`
      starts with; `None` when there is none. */
  function FindPrefix(table: seq<string>, content: string): (r: Option<string>)
    ensures r.None? <==> forall i :: 0 <= i < |table| ==> !(table[i] <= content)
    ensures r.Some? ==> exists i :: 0 <= i < |table| && table[i] == r.value && table[i] <= content &&
                                    forall j :: 0 <= j < i ==> !(table[j] <= content)
  {
    if table == [] then None
    else if table[0] <= content then Some(table[0])
    else
      var r := FindPrefix(table[1..], content);
      assert forall i :: 1 <= i < |table| ==> table[i] == table[1..][i - 1];
      r
  }

  // ---------------------------------------------------------------------
  // Tokenizing (`content.split(' ')`)
  // ---------------------------------------------------------------------

  /** True when `s` holds no occurrence of `c`. */
  predicate Excludes(s: string, c: char) {
    forall i :: 0 <= i < |s| ==> s[i] != c
  }

  /** `t` appears somewhere inside `s`. */
  predicate Occurs(t: string, s: string) {
    exists i :: 0 <= i <= |s| && t <= s[i..]
  }

  /** A string occurs at the end of anything it ends. */
  lemma OccursAtEnd(x: string, t: string)
    ensures Occurs(t, x + t)
  {
    assert (x + t)[|x|..] == t;
  }

  /** An occurrence stays one when text is appended. */
  lemma OccursExtend(t: string, s: string, u: string)
    requires Occurs(t, s)
    ensures Occurs(t, s + u)
  {
    var i :| 0 <= i <= |s| && t <= s[i..];
    assert (s + u)[i..] == s[i..] + u;
  }

  predicate NoSpace(s: string) {
    Excludes(s, ' ')
  }

  /** `s.split(' ')`: the pieces between single spaces, so two adjacent
      spaces give an empty piece and the empty string gives `[""]`. */
  function Split(s: string): (r: seq<string>)
    ensures |r| >= 1
    ensures forall i :: 0 <= i < |r| ==> NoSpace(r[i])
    decreases |s|
  {
    if s == [] then [""]
    else if s[0] == ' ' then [""] + Split(s[1..])
    else
      var rest := Split(s[1..]);
      [[s[0]] + rest[0]] + rest[1..]
  }

  /** `words.join(' ')`, the inverse of `Split`. */
  function Join(words: seq<string>): string
    requires |words| >= 1
  {
    if |words| == 1 then words[0] else words[0] + " " + Join(words[1..])
  }

  /** Splitting and joining again gives back the message text. */
  lemma {:induction false} JoinSplit(s: string)
    ensures Join(Split(s)) == s
    decreases |s|
  {
    if s == [] {
    } else if s[0] == ' ' {
      JoinSplit(s[1..]);
      assert ([""] + Split(s[1..]))[1..] == Split(s[1..]);
      assert s == [' '] + s[1..];
    } else {
      var rest := Split(s[1..]);
      JoinSplit(s[1..]);
      var r := [[s[0]] + rest[0]] + rest[1..];
      assert r[1..] == rest[1..];
      assert s == [s[0]] + s[1..];
      if |rest| == 1 {
        assert Join(r) == [s[0]] + rest[0];
      } else {
        assert Join(rest) == rest[0] + " " + Join(rest[1..]);
      }
    }
  }

  /** A word without spaces stays glued to the first piece of what follows it. */
  lemma {:induction false} SplitAfterWord(w: string, t: string)
    requires NoSpace(w)
    ensures Split(w + t) == [w + Split(t)[0]] + Split(t)[1..]
    decreases |w|
  {
    if w == [] {
      assert w + t == t;
      assert w + Split(t)[0] == Split(t)[0];
      assert [Split(t)[0]] + Split(t)[1..] == Split(t);
    } else {
      var u := w + t;
      assert u[0] == w[0] && u[0] != ' ';
      assert u[1..] == w[1..] + t;
      SplitAfterWord(w[1..], t);
      assert [w[0]] + (w[1..] + Split(t)[0]) == w + Split(t)[0];
    }
  }

  /** Joining space-free words and splitting again gives back the words. */
  lemma {:induction false} SplitJoin(words: seq<string>)
    requires |words| >= 1
    requires forall i :: 0 <= i < |words| ==> NoSpace(words[i])
    ensures Split(Join(words)) == words
    decreases |words|
  {
    if |words| == 1 {
      SplitAfterWord(words[0], "");
      assert words[0] + "" == words[0];
    } else {
      var tail := " " + Join(words[1..]);
      SplitJoin(words[1..]);
      SplitAfterWord(words[0], tail);
      assert tail[0] == ' ' && tail[1..] == Join(words[1..]);
      assert Split(tail) == [""] + words[1..];
      assert words[0] + "" == words[0];
      assert words[0] + " " + Join(words[1..]) == words[0] + tail;
      assert words == [words[0]] + words[1..];
    }
  }

  /** The first word of a joined command keeps a prefix it starts with. */
  lemma PrefixOfJoin(prefix: string, words: seq<string>)
    requires |words| >= 1 && prefix <= words[0]
    ensures prefix <= Join(words)
  {
    var content := Join(words);
    assert words[0] <= content;
    assert content[..|prefix|] == words[0][..|prefix|];
  }

  // ---------------------------------------------------------------------
  // Decimal numbers
  // ---------------------------------------------------------------------

  predicate IsDigit(c: char) {
    '0' <= c <= '9'
  }

  predicate IsDigits(s: string) {
    forall i :: 0 <= i < |s| ==> IsDigit(s[i])
  }

  function DigitValue(c: char): nat
    requires IsDigit(c)
  {
    (c as int) - ('0' as int)
  }

  function DigitChar(d: nat): (c: char)
    requires d < 10
    ensures IsDigit(c) && DigitValue(c) == d
  {
    ('0' as int + d) as char
  }

  /** The value of a string of decimal digits, most significant first. */
  function DigitsValue(s: string): nat
    requires IsDigits(s)
  {
    if s == [] then 0 else DigitsValue(s[..|s| - 1]) * 10 + DigitValue(s[|s| - 1])
  }

  /** The shortest decimal numeral of `n`. */
  function NatToDecimal(n: nat): (r: string)
    ensures |r| >= 1 && IsDigits(r) && DigitsValue(r) == n
    ensures |r| == 1 || r[0] != '0'
  {
    if n < 10 then [DigitChar(n)]
    else
      var high := NatToDecimal(n / 10);
      var r := high + [DigitChar(n % 10)];
      assert r[..|r| - 1] == high;
      r
  }

  /** `Number.prototype.toString(10)` of an integral number. */
  function IntToDecimal(n: int): (r: string)
    ensures |r| >= 1 && Excludes(r, '<') && Excludes(r, ' ')
  {
    if n < 0 then "-" + NatToDecimal(-n) else NatToDecimal(n)
  }

  /** An optionally signed string of decimal digits, and its value: the
      tokens on which `isNaN`, `Number` and `parseInt` all agree. */
  function ParseDecimal(s: string): (r: Option<int>)
    ensures r.Some? ==> |s| >= 1 && NoSpace(s)
  {
    if |s| >= 2 && (s[0] == '+' || s[0] == '-') && IsDigits(s[1..]) then
      Some(if s[0] == '-' then -(DigitsValue(s[1..]) as int) else DigitsValue(s[1..]))
    else if |s| >= 1 && IsDigits(s) then Some(DigitsValue(s))
    else None
  }

  /** Printing an integer and parsing it back is the identity. */
  lemma DecimalRoundTrip(n: int)
    ensures ParseDecimal(IntToDecimal(n)) == Some(n)
  {
    var s := IntToDecimal(n);
    if n < 0 {
      assert s[0] == '-' && s[1..] == NatToDecimal(-n);
    } else {
      assert IsDigit(s[0]);
    }
  }

  // ---------------------------------------------------------------------
  // Reading fields back out of a concatenation
  // ---------------------------------------------------------------------

  /** Where the two fields of `open + a + mid + b + close` sit. */
  lemma FieldsAt(open: string, a: string, mid: string, b: string, close: string)
    ensures var r := open + a + mid + b + close;
            var i := |open|;
            var j := i + |a| + |mid|;
            j + |b| <= |r| && r[i..i + |a|] == a && r[j..j + |b|] == b
  {
    var r := open + a + mid + b + close;
    assert r == (open + a) + (mid + b + close);
    assert r == (open + a + mid) + (b + close);
  }

  /** In `x + m + r`, the first occurrence of `m[0]` is where `m` begins. */
  lemma MarkerAt(x: string, m: string, r: string)
    requires |m| >= 1 && Excludes(x, m[0])
    ensures |x| < |x + m + r| && (x + m + r)[|x|] == m[0]
    ensures forall i :: 0 <= i < |x| ==> (x + m + r)[i] != m[0]
  {
  }

  /** When `x` and `y` cannot contain the first character of the marker
      `m`, the text before `m` is determined by the whole string. */
  lemma SplitAtMarker(x: string, y: string, m: string, r1: string, r2: string)
    requires |m| >= 1 && Excludes(x, m[0]) && Excludes(y, m[0])
    requires x + m + r1 == y + m + r2
    ensures x == y && r1 == r2
  {
    var u := x + m + r1;
    MarkerAt(x, m, r1);
    MarkerAt(y, m, r2);
    assert |x| == |y|;
    assert x == u[..|x|] && y == u[..|y|];
    assert r1 == u[|x| + |m|..] && r2 == u[|y| + |m|..];
  }

  /** Two fields framed by the same fixed text, where each field excludes
      the first character of the text that follows it, are read back
      uniquely from the whole string. */
  lemma FieldsDetermined(open: string, a: string, mid: string, b: string, close: string, c: string, d: string)
    requires |mid| >= 1 && |close| >= 1
    requires Excludes(a, mid[0]) && Excludes(c, mid[0]) && Excludes(b, close[0]) && Excludes(d, close[0])
    requires open + a + mid + b + close == open + c + mid + d + close
    ensures a == c && b == d
  {
    var u := open + a + mid + b + close;
    var v := open + c + mid + d + close;
    assert u[|open|..] == a + mid + (b + close);
    assert v[|open|..] == c + mid + (d + close);
    SplitAtMarker(a, c, mid, b + close, d + close);
    assert b + close + "" == d + close + "";
    SplitAtMarker(b, d, close, "", "");
  }
}
