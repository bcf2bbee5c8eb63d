/** The text side of Portable Tak Notation: character classes, the decimal
    readings that `parseInt` gives, and the token recogniser.

    The recogniser is the regular expression
      (\d)?([CS])?([a-h])([1-8])(([<>+-])([1-8]+)?(\*)?)?   with the i flag
    written out as the search it performs: the first start position that
    matches wins; at that position the optional count digit and the optional
    special-piece letter are tried greedily, and dropped again when what
    follows is not a square; the movement group, the distribution run and the
    wall-smash star are optional and greedy. The i flag makes the two letter
    classes case-insensitive; it has no effect on the digit and symbol classes. */
module Notation {
  import opened Wrappers

  // ---------------------------------------------------------------------------
  // Character classes of the pattern

  /** `\d`: an ASCII decimal digit. */
  predicate IsDigit(c: char) { '0' <= c <= '9' }

  /** `[CS]` under the i flag. */
  predicate IsSpecialLetter(c: char) { c == 'C' || c == 'c' || c == 'S' || c == 's' }

  /** `[a-h]` under the i flag. */
  predicate IsColumnLetter(c: char) { 'a' <= c <= 'h' || 'A' <= c <= 'H' }

  /** `[1-8]`. */
  predicate IsRowDigit(c: char) { '1' <= c <= '8' }

  /** `[<>+-]`. */
  predicate IsDirection(c: char) { c == '<' || c == '>' || c == '+' || c == '-' }

  predicate AllDigits(s: string) { forall i | 0 <= i < |s| :: IsDigit(s[i]) }

  predicate AllRowDigits(s: string) { forall i | 0 <= i < |s| :: IsRowDigit(s[i]) }

  /** A non-empty string of decimal digits: what every count and distribution
      text of a parsed token is. */
  predicate IsNumeral(s: string) { |s| > 0 && AllDigits(s) }

  // ---------------------------------------------------------------------------
  // Numeric readings

  /** The value of one decimal digit character. */
  function DigitValue(c: char): (n: nat)
    requires IsDigit(c)
    ensures n <= 9 && "0123456789"[n] == c
  {
    (c as int) - ('0' as int)
  }

  /** The decimal number a string of digits spells, read left to right. */
  function DecimalValue(s: string): nat
    requires AllDigits(s)
  {
    if |s| == 0 then 0 else 10 * DecimalValue(s[..|s| - 1]) + DigitValue(s[|s| - 1])
  }

  /** The sum of the digits of a string of digits. */
  function DigitSum(s: string): nat
    requires AllDigits(s)
  {
    if |s| == 0 then 0 else DigitSum(s[..|s| - 1]) + DigitValue(s[|s| - 1])
  }

  /** The value of each digit of a string of digits, in order. */
  function Digits(s: string): (ds: seq<nat>)
    requires AllDigits(s)
    ensures |ds| == |s|
    ensures forall i | 0 <= i < |s| :: ds[i] <= 9 && "0123456789"[ds[i]] == s[i]
  {
    seq(|s|, i requires 0 <= i < |s| => DigitValue(s[i]))
  }

  function Sum(xs: seq<int>): int
  {
    if |xs| == 0 then 0 else Sum(xs[..|xs| - 1]) + xs[|xs| - 1]
  }

  /** Summing the characters directly and summing their mapped values agree:
      the source's `stackTotal` is the sum of its `stackDistribution`. */
  lemma {:induction false} DigitSumIsSumOfDigits(s: string)
    requires AllDigits(s)
    ensures DigitSum(s) == Sum(Digits(s))
  {
    if |s| > 0 {
      var t := s[..|s| - 1];
      DigitSumIsSumOfDigits(t);
      assert Digits(s)[..|s| - 1] == Digits(t);
    }
  }

  lemma {:induction false} DecimalAtLeastDigitSum(s: string)
    requires AllDigits(s)
    ensures DecimalValue(s) >= DigitSum(s)
  {
    if |s| > 0 {
      DecimalAtLeastDigitSum(s[..|s| - 1]);
    }
  }

  lemma {:induction false} DecimalPositive(s: string)
    requires AllDigits(s) && |s| > 0 && s[0] != '0'
    ensures DecimalValue(s) >= 1
  {
    if |s| > 1 {
      var t := s[..|s| - 1];
      assert t[0] == s[0];
      DecimalPositive(t);
    }
  }

  /** A numeral of two or more digits without a leading zero is worth more
      than the sum of its digits. */
  lemma DecimalExceedsDigitSum(s: string)
    requires AllDigits(s) && |s| >= 2 && s[0] != '0'
    ensures DecimalValue(s) > DigitSum(s)
  {
    var t := s[..|s| - 1];
    assert t[0] == s[0];
    DecimalPositive(t);
    DecimalAtLeastDigitSum(t);
  }

  // ---------------------------------------------------------------------------
  // String search

  /** The index of a column letter among the lower-case files: its place
      for a lower-case letter, -1 for an upper-case one. */
  lemma FileIndex(c: char)
    requires IsColumnLetter(c)
    ensures -1 <= IndexOf(Files, c) <= 7
    ensures IndexOf(Files, c) == -1 <==> 'A' <= c <= 'H'
    ensures IndexOf(Files, c) >= 0 ==> Files[IndexOf(Files, c)] == c
  {
    assert c in Files <==> 'a' <= c <= 'h';
  }

  /** `h.indexOf(c)` for a one-character needle: the first position of `c`,
      or -1 when `c` does not occur. */
  function IndexOf(h: string, c: char): (r: int)
    ensures -1 <= r < |h|
    ensures r == -1 <==> c !in h
    ensures r >= 0 ==> h[r] == c && forall j | 0 <= j < r :: h[j] != c
  {
    if |h| == 0 then -1
    else if h[0] == c then 0
    else
      var k := IndexOf(h[1..], c);
      assert c in h <==> c in h[1..] by {
        assert h == [h[0]] + h[1..];
      }
      if k == -1 then -1 else k + 1
  }

  /** The board's column letters, in order. */
  const Files := "abcdefgh"

  // ---------------------------------------------------------------------------
  // The match

  /** The match data: `index` is where the match starts, `text` is the whole
      matched substring, the rest are the eight capture groups in order. */
  datatype Match = Match(
    index: nat,
    text: string,
    pieceCount: Option<string>,
    specialPiece: Option<string>,
    column: string,
    row: string,
    movement: Option<string>,
    direction: Option<string>,
    distribution: Option<string>,
    wallSmash: Option<string>)

  /** The text of an optional group, empty when it did not take part. */
  function Text(o: Option<string>): string
  {
    if o.Some? then o.value else ""
  }

  /** What every match of the pattern looks like: each group has the shape
      of its sub-pattern, and the matched text is the groups in order. */
  predicate Shaped(m: Match)
  {
    GroupsShaped(m) && Spelled(m)
  }

  /** Each group has the shape of its sub-pattern. */
  predicate GroupsShaped(m: Match)
  {
    (m.pieceCount.Some? ==> |m.pieceCount.value| == 1 && IsDigit(m.pieceCount.value[0])) &&
    (m.specialPiece.Some? ==> |m.specialPiece.value| == 1 && IsSpecialLetter(m.specialPiece.value[0])) &&
    |m.column| == 1 && IsColumnLetter(m.column[0]) &&
    |m.row| == 1 && IsRowDigit(m.row[0]) &&
    (m.direction.Some? <==> m.movement.Some?) &&
    (m.direction.Some? ==> |m.direction.value| == 1 && IsDirection(m.direction.value[0])) &&
    (m.distribution.Some? ==>
       m.movement.Some? && |m.distribution.value| > 0 && AllRowDigits(m.distribution.value)) &&
    (m.wallSmash.Some? ==> m.movement.Some? && m.wallSmash.value == "*")
  }

  /** The count and distribution groups are numerals, and a movement group
      is never empty. */
  lemma ShapedGroups(m: Match)
    requires Shaped(m)
    ensures m.pieceCount.Some? ==> IsNumeral(m.pieceCount.value)
    ensures m.distribution.Some? ==> IsNumeral(m.distribution.value)
    ensures m.movement.Some? ==> m.movement.value != ""
  {
    if m.movement.Some? {
      assert |m.movement.value| >= |m.direction.value| == 1;
    }
  }

  /** The matched text is the groups in order, and the movement group is its
      own three parts in order. */
  predicate Spelled(m: Match)
  {
    (m.movement.Some? ==>
       m.direction.Some? &&
       m.movement.value == m.direction.value + Text(m.distribution) + Text(m.wallSmash)) &&
    m.text == Text(m.pieceCount) + Text(m.specialPiece) + m.column + m.row + Text(m.movement)
  }

  /** The matched text stands in `s` at `m.index`. */
  predicate Occurs(s: string, m: Match)
  {
    m.index + |m.text| <= |s| && s[m.index..m.index + |m.text|] == m.text
  }

  /** Position of the column letter of `m` in the searched string. */
  function ColumnAt(m: Match): nat
  {
    m.index + |Text(m.pieceCount)| + |Text(m.specialPiece)|
  }

  /** Position just after the distribution run of a movement. */
  function RunStop(m: Match): nat
  {
    ColumnAt(m) + 3 + |Text(m.distribution)|
  }

  /** The greedy choices: every optional part is taken whenever the rest of
      the pattern still matches with it. */
  predicate Greedy(s: string, m: Match)
  {
    (m.pieceCount.None? ==> m.index < |s| && !IsDigit(s[m.index])) &&
    (m.specialPiece.None? ==>
       var q := m.index + |Text(m.pieceCount)|;
       !(q < |s| && IsSpecialLetter(s[q]) && Square(s, q + 1))) &&
    (m.movement.None? ==>
       var e := ColumnAt(m) + 2;
       e >= |s| || !IsDirection(s[e])) &&
    (m.movement.Some? ==>
       var r := RunStop(m);
       (r >= |s| || !IsRowDigit(s[r])) &&
       (m.wallSmash.None? ==> r >= |s| || s[r] != '*'))
  }

  /** A column letter at `c` followed by a row digit. */
  predicate Square(s: string, c: nat)
  {
    c + 1 < |s| && IsColumnLetter(s[c]) && IsRowDigit(s[c + 1])
  }

  /** The pattern matches starting at `p`, in one of its four prefix forms. */
  predicate CanStartAt(s: string, p: nat)
  {
    Square(s, p) ||
    (p < |s| && IsSpecialLetter(s[p]) && Square(s, p + 1)) ||
    (p < |s| && IsDigit(s[p]) &&
      (Square(s, p + 1) || (p + 1 < |s| && IsSpecialLetter(s[p + 1]) && Square(s, p + 2))))
  }

  /** The end of the greedy run of `[1-8]` that begins at `i`. */
  function RunEnd(s: string, i: nat): (j: nat)
    requires i <= |s|
    decreases |s| - i
    ensures i <= j <= |s|
    ensures forall k | i <= k < j :: IsRowDigit(s[k])
    ensures j == |s| || !IsRowDigit(s[j])
  {
    if i < |s| && IsRowDigit(s[i]) then RunEnd(s, i + 1) else i
  }

  /** The match whose prefix groups are `count` and `special` and whose
      square is at `c`: the optional movement group is matched greedily. */
  function Finish(s: string, start: nat, count: Option<string>, special: Option<string>, c: nat): Match
    requires Square(s, c)
    requires start + |Text(count)| + |Text(special)| == c
  {
    var lead := c + 2;
    if lead < |s| && IsDirection(s[lead]) then
      var e := RunEnd(s, lead + 1);
      var stop := if e < |s| && s[e] == '*' then e + 1 else e;
      Match(start, s[start..stop], count, special, s[c..c + 1], s[c + 1..lead],
            Some(s[lead..stop]), Some(s[lead..lead + 1]),
            if e > lead + 1 then Some(s[lead + 1..e]) else None,
            if stop > e then Some(s[e..stop]) else None)
    else
      Match(start, s[start..lead], count, special, s[c..c + 1], s[c + 1..lead],
            None, None, None, None)
  }

  /** The rest of the pattern after the count group, at `q`: first with the
      special-piece letter, then, backtracking, without it. */
  function AfterCount(s: string, start: nat, count: Option<string>, q: nat): Option<Match>
    requires start + |Text(count)| == q <= |s|
  {
    if q < |s| && IsSpecialLetter(s[q]) && Square(s, q + 1) then
      Some(Finish(s, start, count, Some(s[q..q + 1]), q + 1))
    else if Square(s, q) then
      Some(Finish(s, start, count, None, q))
    else
      None
  }

  /** The pattern anchored at `p`: first with the count digit, then,
      backtracking, without it. */
  function MatchAt(s: string, p: nat): Option<Match>
    requires p <= |s|
  {
    if p < |s| && IsDigit(s[p]) && AfterCount(s, p, Some(s[p..p + 1]), p + 1).Some? then
      AfterCount(s, p, Some(s[p..p + 1]), p + 1)
    else
      AfterCount(s, p, None, p)
  }

  /** The unanchored search from `p` on: the first start that matches. */
  function SearchFrom(s: string, p: nat): Option<Match>
    requires p <= |s|
    decreases |s| - p
  {
    var here := MatchAt(s, p);
    if here.Some? || p == |s| then here else SearchFrom(s, p + 1)
  }

  /** `notation.match(pattern)`: the leftmost match, or None (`null`). */
  function Recognise(s: string): Option<Match>
  {
    SearchFrom(s, 0)
  }

  // ---------------------------------------------------------------------------
  // What the recogniser finds

  /** `Finish` when a direction follows the square. */
  lemma FinishIsMovement(s: string, start: nat, count: Option<string>, special: Option<string>, c: nat)
    requires Square(s, c)
    requires start + |Text(count)| + |Text(special)| == c
    requires c + 2 < |s| && IsDirection(s[c + 2])
    ensures var lead, e := c + 2, RunEnd(s, c + 3);
      var stop := if e < |s| && s[e] == '*' then e + 1 else e;
      Finish(s, start, count, special, c) ==
        Match(start, s[start..stop], count, special, s[c..c + 1], s[c + 1..lead],
              Some(s[lead..stop]), Some(s[lead..lead + 1]),
              if e > lead + 1 then Some(s[lead + 1..e]) else None,
              if stop > e then Some(s[e..stop]) else None)
  {
  }

  lemma RunIsRowDigits(s: string, i: nat)
    requires i <= |s|
    ensures AllRowDigits(s[i..RunEnd(s, i)])
  {
    var r := s[i..RunEnd(s, i)];
    forall k | 0 <= k < |r|
      ensures IsRowDigit(r[k])
    {
      assert r[k] == s[i + k];
    }
  }

  /** The match `Finish` builds has the pattern's shape, stands in `s` where
      it starts, and took the movement group, the run and the star greedily. */
  lemma FinishShape(s: string, start: nat, count: Option<string>, special: Option<string>, c: nat)
    requires Square(s, c)
    requires start + |Text(count)| + |Text(special)| == c
    requires Text(count) + Text(special) == s[start..c]
    requires count.Some? ==> |count.value| == 1 && IsDigit(count.value[0])
    requires special.Some? ==> |special.value| == 1 && IsSpecialLetter(special.value[0])
    ensures var m := Finish(s, start, count, special, c);
      m.index == start && m.pieceCount == count && m.specialPiece == special &&
      ColumnAt(m) == c && Shaped(m) && Occurs(s, m) && MovementGreedy(s, m)
  {
    if c + 2 < |s| && IsDirection(s[c + 2]) {
      FinishMovement(s, start, count, special, c);
    } else {
      FinishPlain(s, start, count, special, c);
    }
  }

  lemma FinishPlain(s: string, start: nat, count: Option<string>, special: Option<string>, c: nat)
    requires Square(s, c)
    requires start + |Text(count)| + |Text(special)| == c
    requires Text(count) + Text(special) == s[start..c]
    requires count.Some? ==> |count.value| == 1 && IsDigit(count.value[0])
    requires special.Some? ==> |special.value| == 1 && IsSpecialLetter(special.value[0])
    requires !(c + 2 < |s| && IsDirection(s[c + 2]))
    ensures var m := Finish(s, start, count, special, c);
      m.index == start && m.pieceCount == count && m.specialPiece == special &&
      ColumnAt(m) == c && Shaped(m) && Occurs(s, m) && MovementGreedy(s, m)
  {
    assert Finish(s, start, count, special, c) ==
      Match(start, s[start..c + 2], count, special, s[c..c + 1], s[c + 1..c + 2], None, None, None, None);
    var m := Finish(s, start, count, special, c);
    SliceSplit3(s, start, c, c + 1, c + 2);
    assert m.text == Text(count) + Text(special) + m.column + m.row;
  }

  lemma FinishMovement(s: string, start: nat, count: Option<string>, special: Option<string>, c: nat)
    requires Square(s, c)
    requires start + |Text(count)| + |Text(special)| == c
    requires Text(count) + Text(special) == s[start..c]
    requires count.Some? ==> |count.value| == 1 && IsDigit(count.value[0])
    requires special.Some? ==> |special.value| == 1 && IsSpecialLetter(special.value[0])
    requires c + 2 < |s| && IsDirection(s[c + 2])
    ensures var m := Finish(s, start, count, special, c);
      m.index == start && m.pieceCount == count && m.specialPiece == special &&
      ColumnAt(m) == c && Shaped(m) && Occurs(s, m) && MovementGreedy(s, m)
  {
    var lead := c + 2;
    var e := RunEnd(s, lead + 1);
    var stop := if e < |s| && s[e] == '*' then e + 1 else e;
    FinishIsMovement(s, start, count, special, c);
    var m := Finish(s, start, count, special, c);
    RunIsRowDigits(s, lead + 1);
    assert m.index == start && m.text == s[start..stop];
    assert m.column == s[c..c + 1] && m.row == s[c + 1..c + 2];
    assert m.movement == Some(s[c + 2..stop]) && m.direction == Some(s[c + 2..c + 3]);
    assert m.distribution == if e > c + 3 then Some(s[c + 3..e]) else None;
    assert m.wallSmash == if stop > e then Some(s[e..stop]) else None;
    assert Text(m.pieceCount) + Text(m.specialPiece) == s[start..c];
    assert c + 3 <= e <= |s| && AllRowDigits(s[c + 3..e]) && (e == |s| || !IsRowDigit(s[e]));
    MovementParts(s, m, start, c, e, stop);
  }

  /** The facts about a movement match laid out over `s` as `Finish` lays
      it out: the square at `c`, the run up to `e`, the optional star. */
  lemma MovementParts(s: string, m: Match, start: nat, c: nat, e: nat, stop: nat)
    requires Square(s, c) && c + 2 < |s| && IsDirection(s[c + 2])
    requires start + |Text(m.pieceCount)| + |Text(m.specialPiece)| == c
    requires Text(m.pieceCount) + Text(m.specialPiece) == s[start..c]
    requires m.pieceCount.Some? ==> |m.pieceCount.value| == 1 && IsDigit(m.pieceCount.value[0])
    requires m.specialPiece.Some? ==>
      |m.specialPiece.value| == 1 && IsSpecialLetter(m.specialPiece.value[0])
    requires c + 3 <= e <= |s| && AllRowDigits(s[c + 3..e]) && (e == |s| || !IsRowDigit(s[e]))
    requires stop == if e < |s| && s[e] == '*' then e + 1 else e
    requires m.index == start && m.text == s[start..stop]
    requires m.column == s[c..c + 1] && m.row == s[c + 1..c + 2]
    requires m.movement == Some(s[c + 2..stop]) && m.direction == Some(s[c + 2..c + 3])
    requires m.distribution == if e > c + 3 then Some(s[c + 3..e]) else None
    requires m.wallSmash == if stop > e then Some(s[e..stop]) else None
    ensures ColumnAt(m) == c && Shaped(m) && Occurs(s, m) && MovementGreedy(s, m)
  {
    assert Text(m.distribution) == s[c + 3..e];
    assert Text(m.wallSmash) == s[e..stop];
    assert m.wallSmash.Some? ==> m.wallSmash.value == [s[e]];
    MovementSpelled(s, m, start, c, e, stop);
    assert RunStop(m) == e;
  }

  /** A movement match cut out of `s` at these positions is the
      concatenation of its groups. */
  lemma MovementSpelled(s: string, m: Match, start: nat, c: nat, e: nat, stop: nat)
    requires start <= c && c + 3 <= e <= stop <= |s|
    requires Text(m.pieceCount) + Text(m.specialPiece) == s[start..c]
    requires m.text == s[start..stop]
    requires m.column == s[c..c + 1] && m.row == s[c + 1..c + 2]
    requires m.movement == Some(s[c + 2..stop]) && m.direction == Some(s[c + 2..c + 3])
    requires Text(m.distribution) == s[c + 3..e] && Text(m.wallSmash) == s[e..stop]
    ensures Spelled(m)
  {
    SliceSplit3(s, c + 2, c + 3, e, stop);
    SliceSplit4(s, start, c, c + 1, c + 2, stop);
  }

  lemma SliceSplit3(s: string, i: nat, j: nat, k: nat, l: nat)
    requires i <= j <= k <= l <= |s|
    ensures s[i..l] == s[i..j] + s[j..k] + s[k..l]
  {
  }

  lemma SliceSplit4(s: string, i: nat, j: nat, k: nat, l: nat, n: nat)
    requires i <= j <= k <= l <= n <= |s|
    ensures s[i..n] == s[i..j] + s[j..k] + s[k..l] + s[l..n]
  {
    SliceSplit3(s, i, j, k, l);
    assert s[i..n] == s[i..l] + s[l..n];
  }

  /** An anchored match starts where it was tried, has the pattern's shape,
      stands in `s` there, and made every greedy choice. */
  lemma MatchAtSound(s: string, p: nat)
    requires p <= |s|
    requires MatchAt(s, p).Some?
    ensures var m := MatchAt(s, p).value;
      m.index == p && Shaped(m) && Occurs(s, m) && Greedy(s, m)
  {
    var m := MatchAt(s, p).value;
    if p < |s| && IsDigit(s[p]) && AfterCount(s, p, Some(s[p..p + 1]), p + 1).Some? {
      AfterCountSound(s, p, Some(s[p..p + 1]), p + 1);
    } else {
      AfterCountSound(s, p, None, p);
      assert m.pieceCount.None?;
      assert p < |s| && !IsDigit(s[p]);
    }
  }

  lemma AfterCountSound(s: string, start: nat, count: Option<string>, q: nat)
    requires start + |Text(count)| == q <= |s|
    requires Text(count) == s[start..q]
    requires count.Some? ==> |count.value| == 1 && IsDigit(count.value[0])
    requires AfterCount(s, start, count, q).Some?
    ensures var m := AfterCount(s, start, count, q).value;
      m.index == start && m.pieceCount == count && Shaped(m) && Occurs(s, m) &&
      (m.specialPiece.None? ==> !(q < |s| && IsSpecialLetter(s[q]) && Square(s, q + 1))) &&
      (m.specialPiece.None? ==> Square(s, q)) &&
      (m.specialPiece.Some? ==> q < |s| && IsSpecialLetter(s[q]) && Square(s, q + 1)) &&
      MovementGreedy(s, m)
  {
    if q < |s| && IsSpecialLetter(s[q]) && Square(s, q + 1) {
      assert s[start..q + 1] == s[start..q] + s[q..q + 1];
      FinishShape(s, start, count, Some(s[q..q + 1]), q + 1);
    } else {
      FinishShape(s, start, count, None, q);
    }
  }

  /** The greedy facts about the movement group alone. */
  predicate MovementGreedy(s: string, m: Match)
  {
    (m.movement.None? ==>
       var e := ColumnAt(m) + 2;
       e >= |s| || !IsDirection(s[e])) &&
    (m.movement.Some? ==>
       var r := RunStop(m);
       (r >= |s| || !IsRowDigit(s[r])) &&
       (m.wallSmash.None? ==> r >= |s| || s[r] != '*'))
  }

  /** Where the end of the match of `m` lies in the searched string. */
  function EndAt(m: Match): nat
  {
    m.index + |m.text|
  }

  lemma SplitAt(s: string, i: nat, j: nat, a: string, b: string)
    requires i <= j <= |s| && s[i..j] == a + b
    ensures i + |a| <= j && s[i..i + |a|] == a && s[i + |a|..j] == b
  {
    assert s[i..i + |a|] == (a + b)[..|a|];
    assert s[i + |a|..j] == (a + b)[|a|..];
  }

  /** The groups of a match lie side by side in the searched string. */
  lemma Layout(s: string, m: Match)
    requires Shaped(m) && Occurs(s, m)
    ensures var q := m.index + |Text(m.pieceCount)|;
      var c := ColumnAt(m);
      q == c - |Text(m.specialPiece)| && c + 2 <= EndAt(m) <= |s| &&
      s[m.index..q] == Text(m.pieceCount) &&
      s[q..c] == Text(m.specialPiece) &&
      s[c..c + 1] == m.column && s[c + 1..c + 2] == m.row &&
      s[c + 2..EndAt(m)] == Text(m.movement) &&
      (m.movement.Some? ==>
         RunStop(m) <= EndAt(m) &&
         s[c + 2..c + 3] == m.direction.value &&
         s[c + 3..RunStop(m)] == Text(m.distribution) &&
         s[RunStop(m)..EndAt(m)] == Text(m.wallSmash))
  {
    SquareLayout(s, m);
    if m.movement.Some? {
      MovementLayout(s, m);
    }
  }

  lemma SquareLayout(s: string, m: Match)
    requires Shaped(m) && Occurs(s, m)
    ensures var q := m.index + |Text(m.pieceCount)|;
      var c := ColumnAt(m);
      q == c - |Text(m.specialPiece)| && c + 2 <= EndAt(m) <= |s| &&
      s[m.index..q] == Text(m.pieceCount) &&
      s[q..c] == Text(m.specialPiece) &&
      s[c..c + 1] == m.column && s[c + 1..c + 2] == m.row &&
      s[c + 2..EndAt(m)] == Text(m.movement)
  {
    var i, e := m.index, EndAt(m);
    var pc, sp := Text(m.pieceCount), Text(m.specialPiece);
    SplitAt(s, i, e, pc + sp + m.column + m.row, Text(m.movement));
    SplitAt(s, i, i + |pc| + |sp| + 2, pc + sp + m.column, m.row);
    SplitAt(s, i, i + |pc| + |sp| + 1, pc + sp, m.column);
    SplitAt(s, i, i + |pc| + |sp|, pc, sp);
  }

  lemma MovementLayout(s: string, m: Match)
    requires Shaped(m) && m.movement.Some?
    requires ColumnAt(m) + 2 <= EndAt(m) <= |s| && s[ColumnAt(m) + 2..EndAt(m)] == m.movement.value
    ensures var c := ColumnAt(m);
      RunStop(m) <= EndAt(m) &&
      s[c + 2..c + 3] == m.direction.value &&
      s[c + 3..RunStop(m)] == Text(m.distribution) &&
      s[RunStop(m)..EndAt(m)] == Text(m.wallSmash)
  {
    var c, e := ColumnAt(m), EndAt(m);
    SplitAt(s, c + 2, e, m.direction.value + Text(m.distribution), Text(m.wallSmash));
    SplitAt(s, c + 2, RunStop(m), m.direction.value, Text(m.distribution));
  }

  /** A match has a square where its column group stands, and could start
      where it starts. */
  lemma MatchHasSquare(s: string, m: Match)
    requires Shaped(m) && Occurs(s, m)
    ensures Square(s, ColumnAt(m))
    ensures CanStartAt(s, m.index)
  {
    Layout(s, m);
    var c := ColumnAt(m);
    assert s[c] == s[c..c + 1][0];
    assert s[c + 1] == s[c + 1..c + 2][0];
    if m.pieceCount.Some? {
      assert s[m.index] == s[m.index..m.index + 1][0];
    }
    if m.specialPiece.Some? {
      var q := m.index + |Text(m.pieceCount)|;
      assert s[q] == s[q..q + 1][0];
    }
  }

  lemma MatchAtIff(s: string, p: nat)
    requires p <= |s|
    ensures MatchAt(s, p).Some? <==> CanStartAt(s, p)
  {
  }

  lemma {:induction false} SearchFromSound(s: string, p: nat)
    requires p <= |s| && SearchFrom(s, p).Some?
    ensures var m := SearchFrom(s, p).value;
      p <= m.index <= |s| && MatchAt(s, m.index) == Some(m) &&
      forall q | p <= q < m.index :: MatchAt(s, q).None?
    decreases |s| - p
  {
    if MatchAt(s, p).Some? {
      MatchAtSound(s, p);
    } else {
      SearchFromSound(s, p + 1);
    }
  }

  lemma {:induction false} SearchFromComplete(s: string, p: nat, q: nat)
    requires p <= q <= |s| && MatchAt(s, q).Some?
    ensures SearchFrom(s, p).Some?
    decreases q - p
  {
    if MatchAt(s, p).None? {
      SearchFromComplete(s, p + 1, q);
    }
  }

  /** What `notation.match` returns: a match that has the pattern's shape,
      stands in the notation where it starts, made every greedy choice, and
      starts at the first position where the pattern can match at all. */
  lemma RecogniseSound(s: string)
    requires Recognise(s).Some?
    ensures var m := Recognise(s).value;
      Shaped(m) && Occurs(s, m) && Greedy(s, m) &&
      CanStartAt(s, m.index) && forall q | 0 <= q < m.index :: !CanStartAt(s, q)
  {
    var m := Recognise(s).value;
    SearchFromSound(s, 0);
    MatchAtSound(s, m.index);
    MatchAtIff(s, m.index);
    forall q | 0 <= q < m.index ensures !CanStartAt(s, q) {
      MatchAtIff(s, q);
    }
  }

  lemma RecogniseShaped(s: string)
    requires Recognise(s).Some?
    ensures Shaped(Recognise(s).value)
  {
    RecogniseSound(s);
  }

  /** The constructor's 'Invalid PTN format' case: the match fails exactly
      when no column letter in the notation is followed by a row digit. */
  lemma RecogniseFails(s: string)
    ensures Recognise(s).None? <==> forall c | 0 <= c < |s| :: !Square(s, c)
  {
    if Recognise(s).Some? {
      RecogniseSound(s);
      MatchHasSquare(s, Recognise(s).value);
    } else {
      forall c | 0 <= c < |s| ensures !Square(s, c) {
        if Square(s, c) {
          MatchAtIff(s, c);
          SearchFromComplete(s, 0, c);
        }
      }
    }
  }

  /** Two matches at the same position that both made every greedy choice
      are the same match. */
  lemma GreedyUnique(s: string, m1: Match, m2: Match)
    requires Shaped(m1) && Occurs(s, m1) && Greedy(s, m1)
    requires Shaped(m2) && Occurs(s, m2) && Greedy(s, m2)
    requires m1.index == m2.index
    ensures m1 == m2
  {
    Layout(s, m1);
    Layout(s, m2);
    var i := m1.index;
    assert m1.pieceCount == m2.pieceCount by {
      if m1.pieceCount.Some? { assert s[i] == s[i..i + 1][0]; }
      if m2.pieceCount.Some? { assert s[i] == s[i..i + 1][0]; }
    }
    var q := i + |Text(m1.pieceCount)|;
    assert m1.specialPiece == m2.specialPiece by {
      if m1.specialPiece.Some? || m2.specialPiece.Some? {
        assert s[q] == s[q..q + 1][0];
        MatchHasSquare(s, m1);
        MatchHasSquare(s, m2);
      }
    }
    var c := ColumnAt(m1);
    assert m1.movement.Some? <==> m2.movement.Some? by {
      if m1.movement.Some? || m2.movement.Some? {
        assert s[c + 2] == s[c + 2..c + 3][0];
      }
    }
    if m1.movement.Some? {
      MovementLaidOutOf(s, m1);
      MovementLaidOutOf(s, m2);
      MovementUnique(s, m1, m2);
    }
  }

  /** Where the parts of a movement match stand in the searched string:
      the square, the direction after it, the maximal run of row digits after
      that, and the star exactly when one follows the run. */
  predicate MovementLaidOut(s: string, m: Match)
  {
    m.movement.Some? && m.direction.Some? &&
    (m.distribution.Some? ==> m.distribution.value != "") &&
    (m.wallSmash.Some? ==> m.wallSmash.value == "*") &&
    var c, d := ColumnAt(m), Text(m.distribution);
    c + 3 + |d| <= |s| &&
    m.column == s[c..c + 1] && m.row == s[c + 1..c + 2] && m.direction.value == s[c + 2..c + 3] &&
    s[c + 3..c + 3 + |d|] == d && AllRowDigits(d) &&
    (c + 3 + |d| >= |s| || !IsRowDigit(s[c + 3 + |d|])) &&
    (m.wallSmash.Some? <==> c + 3 + |d| < |s| && s[c + 3 + |d|] == '*')
  }

  lemma MovementLaidOutOf(s: string, m: Match)
    requires Shaped(m) && Occurs(s, m) && Greedy(s, m) && m.movement.Some?
    ensures MovementLaidOut(s, m)
  {
    RunOf(s, m);
    StarOf(s, m);
    DirectionOf(s, m);
  }

  lemma MovementUnique(s: string, m1: Match, m2: Match)
    requires Spelled(m1) && MovementLaidOut(s, m1)
    requires Spelled(m2) && MovementLaidOut(s, m2)
    requires m1.index == m2.index && m1.pieceCount == m2.pieceCount
    requires m1.specialPiece == m2.specialPiece
    ensures m1 == m2
  {
    DistributionsAgree(s, ColumnAt(m1) + 3, m1, m2);
    SameParts(m1, m2);
  }

  /** Two distribution groups that are both the maximal run of row digits
      at `i` are equal. */
  lemma DistributionsAgree(s: string, i: nat, m1: Match, m2: Match)
    requires var d := Text(m1.distribution);
      i + |d| <= |s| && s[i..i + |d|] == d && AllRowDigits(d) && (i + |d| >= |s| || !IsRowDigit(s[i + |d|]))
    requires var d := Text(m2.distribution);
      i + |d| <= |s| && s[i..i + |d|] == d && AllRowDigits(d) && (i + |d| >= |s| || !IsRowDigit(s[i + |d|]))
    requires m1.distribution.Some? ==> m1.distribution.value != ""
    requires m2.distribution.Some? ==> m2.distribution.value != ""
    ensures m1.distribution == m2.distribution
  {
    RunsAgree(s, i, Text(m1.distribution), Text(m2.distribution));
  }

  /** Two matches spelled from the same groups at the same index are equal. */
  lemma SameParts(m1: Match, m2: Match)
    requires Spelled(m1) && Spelled(m2)
    requires m1.index == m2.index && m1.pieceCount == m2.pieceCount
    requires m1.specialPiece == m2.specialPiece
    requires m1.column == m2.column && m1.row == m2.row
    requires m1.movement.Some? && m2.movement.Some?
    requires m1.direction == m2.direction && m1.distribution == m2.distribution
    requires m1.wallSmash == m2.wallSmash
    ensures m1 == m2
  {
  }

  /** The direction group of a movement match stands two after its column. */
  lemma DirectionOf(s: string, m: Match)
    requires Shaped(m) && Occurs(s, m) && m.movement.Some?
    ensures ColumnAt(m) + 3 <= |s| && m.direction.value == s[ColumnAt(m) + 2..ColumnAt(m) + 3]
    ensures m.column == s[ColumnAt(m)..ColumnAt(m) + 1] && m.row == s[ColumnAt(m) + 1..ColumnAt(m) + 2]
  {
    Layout(s, m);
  }

  /** A movement match ends with the star exactly when one follows its run. */
  lemma StarOf(s: string, m: Match)
    requires Shaped(m) && Occurs(s, m) && Greedy(s, m) && m.movement.Some?
    ensures m.wallSmash.Some? <==> RunStop(m) < |s| && s[RunStop(m)] == '*'
  {
    Layout(s, m);
    if m.wallSmash.Some? {
      CharOfSlice(s, RunStop(m), EndAt(m), 0);
    }
  }

  /** The distribution run of a movement match, as `RunsAgree` needs it. */
  lemma RunOf(s: string, m: Match)
    requires Shaped(m) && Occurs(s, m) && Greedy(s, m) && m.movement.Some?
    ensures var i, d := ColumnAt(m) + 3, Text(m.distribution);
      i + |d| <= |s| && s[i..i + |d|] == d && AllRowDigits(d) &&
      (i + |d| >= |s| || !IsRowDigit(s[i + |d|]))
  {
    Layout(s, m);
  }

  /** Two maximal runs of row digits from the same position are equal. */
  lemma RunsAgree(s: string, i: nat, d1: string, d2: string)
    requires i + |d1| <= |s| && s[i..i + |d1|] == d1 && AllRowDigits(d1)
    requires i + |d2| <= |s| && s[i..i + |d2|] == d2 && AllRowDigits(d2)
    requires i + |d1| >= |s| || !IsRowDigit(s[i + |d1|])
    requires i + |d2| >= |s| || !IsRowDigit(s[i + |d2|])
    ensures d1 == d2
  {
    RunNotLonger(s, i, d1, d2);
    RunNotLonger(s, i, d2, d1);
  }

  /** A run of row digits from `i` is no longer than a maximal one. */
  lemma RunNotLonger(s: string, i: nat, d1: string, d2: string)
    requires i + |d1| <= |s| && s[i..i + |d1|] == d1
    requires i + |d2| <= |s| && s[i..i + |d2|] == d2 && AllRowDigits(d2)
    requires i + |d1| >= |s| || !IsRowDigit(s[i + |d1|])
    ensures |d2| <= |d1|
  {
    if |d1| < |d2| {
      CharOfSlice(s, i, i + |d2|, |d1|);
      assert false;
    }
  }

  lemma CharOfSlice(s: string, i: int, j: int, k: int)
    requires 0 <= i <= j <= |s| && 0 <= k < j - i
    ensures s[i..j][k] == s[i + k]
  {
  }

  /** The recogniser is the leftmost greedy match and nothing else: any
      match of the pattern's shape that made every greedy choice and starts
      where the pattern first can is the one `Recognise` returns. */
  lemma RecogniseUnique(s: string, m: Match)
    requires Shaped(m) && Occurs(s, m) && Greedy(s, m)
    requires forall q | 0 <= q < m.index :: !CanStartAt(s, q)
    ensures Recognise(s) == Some(m)
  {
    MatchHasSquare(s, m);
    MatchAtIff(s, m.index);
    SearchFromComplete(s, 0, m.index);
    RecogniseSound(s);
    var r := Recognise(s).value;
    SearchFromSound(s, 0);
    assert r.index == m.index;
    GreedyUnique(s, r, m);
  }
}
