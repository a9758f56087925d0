/** ULIDs: a fixed-width time, then random characters that count up within one millisecond. */
module Ulids {
  import opened Wrappers

  const ENCODING := "0123456789ABCDEFGHJKMNPQRSTVWXYZ"
  const ENCODING_LEN := 32
  const TIME_LEN := 10
  const RANDOM_LEN := 16
  const TIME_MAX := 281474976710655

  predicate InOrder(alphabet: string, i: nat, j: nat) {
    i < j < |alphabet| && alphabet[i] < alphabet[j]
  }

  /** As many characters as the base, in ascending order. */
  predicate IsAlphabet(alphabet: string) {
    |alphabet| == ENCODING_LEN && forall i, j {:trigger InOrder(alphabet, i, j)} | 0 <= i < j < ENCODING_LEN ::
        InOrder(alphabet, i, j)
  }

  predicate Rises(alphabet: string, k: nat) {
    k + 1 < |alphabet| && alphabet[k] < alphabet[k + 1]
  }

  lemma {:induction false} NeighboursOrder(alphabet: string, i: nat, j: nat)
    requires i < j < |alphabet| && forall k | 0 <= k < |alphabet| - 1 :: Rises(alphabet, k)
    ensures InOrder(alphabet, i, j)
  {
    assert Rises(alphabet, j - 1);
    if i < j - 1 { NeighboursOrder(alphabet, i, j - 1); }
  }

  lemma EncodingIsAlphabet()
    ensures IsAlphabet(ENCODING)
  {
    forall k | 0 <= k < |ENCODING| - 1 ensures Rises(ENCODING, k) {}
    forall i, j | 0 <= i < j < ENCODING_LEN ensures InOrder(ENCODING, i, j) {
      NeighboursOrder(ENCODING, i, j);
    }
  }

  function Power(n: nat): nat {
    if n == 0 then 1 else ENCODING_LEN * Power(n - 1)
  }

  predicate AllDigits(alphabet: string, s: string) {
    forall i | 0 <= i < |s| :: s[i] in alphabet
  }

  function IndexIn(alphabet: string, c: char): (i: nat)
    requires c in alphabet
    ensures i < |alphabet| && alphabet[i] == c
  {
    if alphabet[0] == c then 0 else 1 + IndexIn(alphabet[1..], c)
  }

  /** The number a text of digits stands for, most significant digit first. */
  function Value(alphabet: string, s: string): nat
    requires AllDigits(alphabet, s)
  {
    if s == "" then 0 else ENCODING_LEN * Value(alphabet, s[..|s| - 1]) + IndexIn(alphabet, s[|s| - 1])
  }

  /** Lexicographic order, as strings are compared. */
  predicate Less(a: string, b: string) {
    if b == "" then false
    else if a == "" then true
    else a[0] < b[0] || (a[0] == b[0] && Less(a[1..], b[1..]))
  }

  lemma DigitsAscend(alphabet: string, c: char, d: char)
    requires IsAlphabet(alphabet) && c in alphabet && d in alphabet
    ensures c < d <==> IndexIn(alphabet, c) < IndexIn(alphabet, d)
  {
    var i, j := IndexIn(alphabet, c), IndexIn(alphabet, d);
    assert i < j ==> InOrder(alphabet, i, j);
    assert j < i ==> InOrder(alphabet, j, i);
  }

  lemma DigitIsIndex(alphabet: string, d: nat)
    requires IsAlphabet(alphabet) && d < ENCODING_LEN
    ensures alphabet[d] in alphabet && IndexIn(alphabet, alphabet[d]) == d
  {
    forall k | 0 <= k < ENCODING_LEN && k != d ensures alphabet[k] != alphabet[d] {
      assert if k < d then InOrder(alphabet, k, d) else InOrder(alphabet, d, k);
    }
  }

  lemma ValueSnoc(alphabet: string, s: string, c: char)
    requires AllDigits(alphabet, s) && c in alphabet
    ensures AllDigits(alphabet, s + [c])
    ensures Value(alphabet, s + [c]) == ENCODING_LEN * Value(alphabet, s) + IndexIn(alphabet, c)
  {
    assert (s + [c])[..|s|] == s;
  }

  lemma Rebase(a: nat, power: nat, b: nat, d: nat)
    ensures ENCODING_LEN * (a * power + b) + d == a * (ENCODING_LEN * power) + (ENCODING_LEN * b + d)
  {
  }

  lemma {:induction false} ValueSplit(alphabet: string, a: string, b: string)
    requires AllDigits(alphabet, a) && AllDigits(alphabet, b)
    ensures AllDigits(alphabet, a + b)
    ensures Value(alphabet, a + b) == Value(alphabet, a) * Power(|b|) + Value(alphabet, b)
  {
    if b == "" {
      assert a + b == a;
    } else {
      var shorter, last := b[..|b| - 1], b[|b| - 1];
      assert a + b == (a + shorter) + [last] && b == shorter + [last];
      ValueSplit(alphabet, a, shorter);
      ValueSnoc(alphabet, a + shorter, last);
      ValueSnoc(alphabet, shorter, last);
      Rebase(Value(alphabet, a), Power(|shorter|), Value(alphabet, shorter), IndexIn(alphabet, last));
    }
  }

  lemma {:induction false} ValueBound(alphabet: string, s: string)
    requires |alphabet| == ENCODING_LEN && AllDigits(alphabet, s)
    ensures Value(alphabet, s) < Power(|s|)
  {
    if s != "" { ValueBound(alphabet, s[..|s| - 1]); }
  }

  lemma ValueCons(alphabet: string, s: string)
    requires IsAlphabet(alphabet) && AllDigits(alphabet, s) && s != ""
    ensures AllDigits(alphabet, s[1..])
    ensures Value(alphabet, s) == IndexIn(alphabet, s[0]) * Power(|s| - 1) + Value(alphabet, s[1..])
    ensures Value(alphabet, s[1..]) < Power(|s| - 1)
  {
    var first, rest := [s[0]], s[1..];
    assert s == first + rest;
    ValueOne(alphabet, s[0]);
    ValueSplit(alphabet, first, rest);
    ValueBound(alphabet, rest);
  }

  lemma ValueOne(alphabet: string, c: char)
    requires c in alphabet
    ensures AllDigits(alphabet, [c]) && Value(alphabet, [c]) == IndexIn(alphabet, c)
  {
    ValueSnoc(alphabet, "", c);
    assert "" + [c] == [c];
  }

  lemma HeadDecides(c: nat, d: nat, width: nat, x: nat, y: nat)
    requires x < width && y < width
    ensures c < d ==> c * width + x < d * width + y
    ensures d < c ==> d * width + y < c * width + x
  {
    if c < d { assert (c + 1) * width <= d * width; }
    if d < c { assert (d + 1) * width <= c * width; }
  }

  /** The first digits decide, and the rest when they are equal. */
  lemma FirstDecides(alphabet: string, a: string, b: string)
    requires IsAlphabet(alphabet) && |a| == |b| && a != "" && AllDigits(alphabet, a) && AllDigits(alphabet, b)
    ensures AllDigits(alphabet, a[1..]) && AllDigits(alphabet, b[1..])
    ensures Value(alphabet, a) < Value(alphabet, b)
            <==> a[0] < b[0] || (a[0] == b[0] && Value(alphabet, a[1..]) < Value(alphabet, b[1..]))
  {
    ValueCons(alphabet, a);
    ValueCons(alphabet, b);
    DigitsAscend(alphabet, a[0], b[0]);
    DigitsAscend(alphabet, b[0], a[0]);
    HeadDecides(IndexIn(alphabet, a[0]), IndexIn(alphabet, b[0]), Power(|a| - 1), Value(alphabet, a[1..]),
        Value(alphabet, b[1..]));
  }

  /** Texts of one width are ordered as the numbers they stand for. */
  lemma {:induction false} OrderIsNumeric(alphabet: string, a: string, b: string)
    requires IsAlphabet(alphabet) && |a| == |b| && AllDigits(alphabet, a) && AllDigits(alphabet, b)
    ensures Less(a, b) <==> Value(alphabet, a) < Value(alphabet, b)
    ensures a == b <==> Value(alphabet, a) == Value(alphabet, b)
  {
    if a != "" {
      FirstDecides(alphabet, a, b);
      FirstDecides(alphabet, b, a);
      OrderIsNumeric(alphabet, a[1..], b[1..]);
      assert a == [a[0]] + a[1..] && b == [b[0]] + b[1..];
    }
  }

  /** The last `width` digits of a number. */
  function Digits(alphabet: string, n: nat, width: nat): (s: string)
    requires |alphabet| == ENCODING_LEN
    ensures |s| == width && AllDigits(alphabet, s)
  {
    if width == 0 then "" else Digits(alphabet, n / ENCODING_LEN, width - 1) + [alphabet[n % ENCODING_LEN]]
  }

  lemma {:induction false} DigitsValue(alphabet: string, n: nat, width: nat)
    requires IsAlphabet(alphabet) && n < Power(width)
    ensures Value(alphabet, Digits(alphabet, n, width)) == n
  {
    if width > 0 {
      DigitsValue(alphabet, n / ENCODING_LEN, width - 1);
      DigitIsIndex(alphabet, n % ENCODING_LEN);
      ValueSnoc(alphabet, Digits(alphabet, n / ENCODING_LEN, width - 1), alphabet[n % ENCODING_LEN]);
    }
  }

  lemma TimeFits(time: nat)
    requires time <= TIME_MAX
    ensures time < Power(TIME_LEN)
  {
    assert Power(2) == 1024;
    assert Power(4) == 1048576;
    assert Power(6) == 1073741824;
    assert Power(8) == 1099511627776;
    assert Power(10) == 1125899906842624;
  }

  /** Times are encoded in a fixed width, without loss and in order. */
  lemma TimesKeepOrder(alphabet: string, a: nat, b: nat)
    requires IsAlphabet(alphabet) && a <= TIME_MAX && b <= TIME_MAX
    ensures Digits(alphabet, a, TIME_LEN) == Digits(alphabet, b, TIME_LEN) <==> a == b
    ensures Less(Digits(alphabet, a, TIME_LEN), Digits(alphabet, b, TIME_LEN)) <==> a < b
  {
    TimeFits(a);
    TimeFits(b);
    DigitsValue(alphabet, a, TIME_LEN);
    DigitsValue(alphabet, b, TIME_LEN);
    OrderIsNumeric(alphabet, Digits(alphabet, a, TIME_LEN), Digits(alphabet, b, TIME_LEN));
  }

  /** Digit by digit from the least significant one. */
  method EncodeTime(alphabet: string, time: nat) returns (out: string)
    requires |alphabet| == ENCODING_LEN
    ensures out == Digits(alphabet, time, TIME_LEN)
  {
    var remaining: nat := time;
    out := "";
    for i := TIME_LEN downto 0
      invariant Digits(alphabet, time, TIME_LEN) == Digits(alphabet, remaining, i) + out
    {
      var mod := remaining % ENCODING_LEN;
      DigitsUnfold(alphabet, remaining, i, out);
      out := [alphabet[mod]] + out;
      remaining := (remaining - mod) / ENCODING_LEN;
    }
  }

  lemma DigitsUnfold(alphabet: string, n: nat, i: nat, out: string)
    requires |alphabet| == ENCODING_LEN
    ensures Digits(alphabet, n, i + 1) + out
            == Digits(alphabet, (n - n % ENCODING_LEN) / ENCODING_LEN, i) + ([alphabet[n % ENCODING_LEN]] + out)
  {
    var q, last := n / ENCODING_LEN, [alphabet[n % ENCODING_LEN]];
    assert (n - n % ENCODING_LEN) / ENCODING_LEN == q;
    AppendTwice(Digits(alphabet, q, i), last, out);
  }

  lemma AppendTwice(a: string, b: string, c: string)
    ensures a + b + c == a + (b + c)
  {
  }

  lemma {:induction false} ZerosAndTops(alphabet: string, zeros: string, tops: string)
    requires IsAlphabet(alphabet) && |zeros| == |tops|
    requires forall i | 0 <= i < |zeros| :: zeros[i] == alphabet[0] && tops[i] == alphabet[ENCODING_LEN - 1]
    ensures AllDigits(alphabet, zeros) && AllDigits(alphabet, tops)
    ensures Value(alphabet, zeros) == 0 && Value(alphabet, tops) + 1 == Power(|tops|)
  {
    if zeros != "" {
      ZerosAndTops(alphabet, zeros[..|zeros| - 1], tops[..|tops| - 1]);
      DigitIsIndex(alphabet, 0);
      DigitIsIndex(alphabet, ENCODING_LEN - 1);
    }
  }

  lemma NextDigit(alphabet: string, prefix: string, d: nat)
    requires IsAlphabet(alphabet) && AllDigits(alphabet, prefix) && d + 1 < ENCODING_LEN
    ensures AllDigits(alphabet, prefix + [alphabet[d]]) && AllDigits(alphabet, prefix + [alphabet[d + 1]])
    ensures Value(alphabet, prefix + [alphabet[d + 1]]) == Value(alphabet, prefix + [alphabet[d]]) + 1
  {
    DigitIsIndex(alphabet, d);
    DigitIsIndex(alphabet, d + 1);
    ValueSnoc(alphabet, prefix, alphabet[d]);
    ValueSnoc(alphabet, prefix, alphabet[d + 1]);
  }

  /** Raising one digit and clearing the full ones after it adds exactly one. */
  lemma {:induction false} CarryAddsOne(alphabet: string, prefix: string, d: nat, tops: string, zeros: string)
    requires IsAlphabet(alphabet) && AllDigits(alphabet, prefix) && d + 1 < ENCODING_LEN && |zeros| == |tops|
    requires forall i | 0 <= i < |zeros| :: zeros[i] == alphabet[0] && tops[i] == alphabet[ENCODING_LEN - 1]
    ensures AllDigits(alphabet, prefix + [alphabet[d]] + tops)
              && AllDigits(alphabet, prefix + [alphabet[d + 1]] + zeros)
    ensures Value(alphabet, prefix + [alphabet[d + 1]] + zeros) == Value(alphabet, prefix + [alphabet[d]] + tops) + 1
  {
    if tops == "" {
      assert prefix + [alphabet[d]] + tops == prefix + [alphabet[d]]
          && prefix + [alphabet[d + 1]] + zeros == prefix + [alphabet[d + 1]];
      NextDigit(alphabet, prefix, d);
    } else {
      var top, zero := tops[..|tops| - 1], zeros[..|zeros| - 1];
      CarryAddsOne(alphabet, prefix, d, top, zero);
      DigitIsIndex(alphabet, 0);
      DigitIsIndex(alphabet, ENCODING_LEN - 1);
      ValueSnoc(alphabet, prefix + [alphabet[d]] + top, alphabet[ENCODING_LEN - 1]);
      ValueSnoc(alphabet, prefix + [alphabet[d + 1]] + zero, alphabet[0]);
      assert prefix + [alphabet[d]] + tops == prefix + [alphabet[d]] + top + [alphabet[ENCODING_LEN - 1]];
      assert prefix + [alphabet[d + 1]] + zeros == prefix + [alphabet[d + 1]] + zero + [alphabet[0]];
    }
  }

  /** Adds one to the digits; when all of them are full, new random digits are used instead. */
  method IncrementRandom(alphabet: string, chars: string, reseed: string) returns (next: string)
    requires IsAlphabet(alphabet) && AllDigits(alphabet, chars) && AllDigits(alphabet, reseed) && |reseed| == |chars|
    ensures |next| == |chars| && AllDigits(alphabet, next)
    ensures if Value(alphabet, chars) + 1 < Power(|chars|) then Value(alphabet, next) == Value(alphabet, chars) + 1
              else next == reseed
  {
    next := chars;
    for i := |chars| downto 0
      invariant |next| == |chars| && next[..i] == chars[..i]
      invariant forall k | i <= k < |chars| :: next[k] == alphabet[0] && chars[k] == alphabet[ENCODING_LEN - 1]
    {
      assert next[i] == next[..i + 1][i] == chars[..i + 1][i] == chars[i];
      var value := IndexIn(alphabet, next[i]);
      if value < ENCODING_LEN - 1 {
        ghost var zeros := next[i + 1..];
        next := next[i := alphabet[value + 1]];
        CarryAddsOne(alphabet, chars[..i], value, chars[i + 1..], zeros);
        assert chars == chars[..i] + [alphabet[value]] + chars[i + 1..];
        assert next == chars[..i] + [alphabet[value + 1]] + zeros;
        ValueBound(alphabet, next);
        return;
      }
      next := next[i := alphabet[0]];
    }
    ZerosAndTops(alphabet, next, chars);
    return reseed;
  }

  predicate Overflows(alphabet: string, random: string)
    requires AllDigits(alphabet, random)
  {
    Value(alphabet, random) + 1 == Power(|random|)
  }

  datatype UlidError = BeyondLastYear

  /** The module state: the millisecond and the random digits of the last ULID. */
  class UlidGenerator {
    const alphabet: string
    var lastTime: int
    var lastRandom: string

    constructor (alphabet: string)
      requires IsAlphabet(alphabet)
      ensures Valid() && lastTime == -1 && this.alphabet == alphabet
    {
      this.alphabet, lastTime, lastRandom := alphabet, -1, "";
    }

    ghost predicate Valid()
      reads this
    {
      && IsAlphabet(alphabet) && -1 <= lastTime <= TIME_MAX
      && AllDigits(alphabet, lastRandom) && (lastTime >= 0 ==> |lastRandom| == RANDOM_LEN)
    }

    /** The last ULID made. */
    ghost function Last(): string
      requires Valid() && lastTime >= 0
      reads this
    {
      Digits(alphabet, lastTime, TIME_LEN) + lastRandom
    }

    /** The next ULID sorts after the last one exactly when its millisecond is later, or is the same one and either
        the count did not overflow or the new random digits happen to be larger. */
    method Ulid(now: nat, random: string) returns (r: Result<string, UlidError>)
      requires Valid() && AllDigits(alphabet, random) && |random| == RANDOM_LEN
      modifies this
      ensures Valid()
      ensures r.Err? <==> now > TIME_MAX
      ensures r.Err? ==> lastTime == old(lastTime) && lastRandom == old(lastRandom)
      ensures r.Ok? ==> lastTime == now && r.value == Last() && |r.value| == TIME_LEN + RANDOM_LEN
      ensures r.Ok? && now == old(lastTime) ==>
                if old(Overflows(alphabet, lastRandom)) then lastRandom == random
                else Value(alphabet, lastRandom) == old(Value(alphabet, lastRandom)) + 1
      ensures r.Ok? && now != old(lastTime) ==> lastRandom == random
      ensures r.Ok? && old(lastTime) >= 0 ==>
                (Less(old(Last()), r.value) <==>
                   || now > old(lastTime)
                   || (now == old(lastTime) && (!old(Overflows(alphabet, lastRandom))
                       || Value(alphabet, random) > old(Value(alphabet, lastRandom)))))
    {
      if now > TIME_MAX { return Err(BeyondLastYear); }
      ValueBound(alphabet, lastRandom);
      ghost var time0, random0 := lastTime, lastRandom;
      if now == lastTime {
        lastRandom := IncrementRandom(alphabet, lastRandom, random);
      } else {
        lastTime := now;
        lastRandom := random;
      }
      var time := EncodeTime(alphabet, now);
      if time0 >= 0 { UlidOrder(alphabet, time0, random0, now, lastRandom); }
      return Ok(time + lastRandom);
    }
  }

  lemma {:induction false} LessWithPrefix(a: string, x: string, b: string, y: string)
    requires |a| == |b|
    ensures Less(a + x, b + y) <==> Less(a, b) || (a == b && Less(x, y))
  {
    if a == "" {
      assert a + x == x && b + y == y;
    } else {
      LessWithPrefix(a[1..], x, b[1..], y);
      assert (a + x)[1..] == a[1..] + x && (b + y)[1..] == b[1..] + y;
      assert a == [a[0]] + a[1..] && b == [b[0]] + b[1..];
    }
  }

  /** ULIDs sort by time, then by their random digits read as a number. */
  lemma UlidOrder(alphabet: string, time0: nat, random0: string, time1: nat, random1: string)
    requires IsAlphabet(alphabet) && time0 <= TIME_MAX && time1 <= TIME_MAX
    requires AllDigits(alphabet, random0) && AllDigits(alphabet, random1) && |random0| == |random1|
    ensures Less(Digits(alphabet, time0, TIME_LEN) + random0, Digits(alphabet, time1, TIME_LEN) + random1)
            <==> time0 < time1 || (time0 == time1 && Value(alphabet, random0) < Value(alphabet, random1))
  {
    TimesKeepOrder(alphabet, time0, time1);
    LessWithPrefix(Digits(alphabet, time0, TIME_LEN), random0, Digits(alphabet, time1, TIME_LEN), random1);
    OrderIsNumeric(alphabet, random0, random1);
  }

  /** The random digits after `n` more calls in the same millisecond, as long as the count does not overflow. */
  ghost predicate CountsUp(alphabet: string, randoms: seq<string>) {
    && (forall i | 0 <= i < |randoms| :: AllDigits(alphabet, randoms[i]) && |randoms[i]| == RANDOM_LEN)
    && (forall i | 0 <= i < |randoms| - 1 :: Value(alphabet, randoms[i + 1]) == Value(alphabet, randoms[i]) + 1)
  }

  lemma {:induction false} CountedFromFirst(alphabet: string, randoms: seq<string>, i: nat)
    requires CountsUp(alphabet, randoms) && i < |randoms|
    ensures Value(alphabet, randoms[i]) == Value(alphabet, randoms[0]) + i
  {
    if i > 0 {
      CountedFromFirst(alphabet, randoms, i - 1);
      assert Value(alphabet, randoms[i - 1 + 1]) == Value(alphabet, randoms[i - 1]) + 1;
    }
  }

  /** All the ULIDs of one millisecond without overflow are distinct and in the order they were made. */
  lemma OneMillisecondAscends(alphabet: string, time: nat, randoms: seq<string>, i: nat, j: nat)
    requires IsAlphabet(alphabet) && time <= TIME_MAX && CountsUp(alphabet, randoms) && i < j < |randoms|
    ensures Less(Digits(alphabet, time, TIME_LEN) + randoms[i], Digits(alphabet, time, TIME_LEN) + randoms[j])
  {
    CountedFromFirst(alphabet, randoms, i);
    CountedFromFirst(alphabet, randoms, j);
    UlidOrder(alphabet, time, randoms[i], time, randoms[j]);
  }
}
