/** The `seat_number` column of a booking: its seat numbers joined with ','
    (JavaScript `seat_numbers.join(',')`), which backs the unique index on
    (showtime_id, seat_number). The parser below is its partner: joining
    loses nothing, so two different seat lists never share a label. */
module SeatLabel {

  predicate IsDigit(c: char) {
    '0' <= c <= '9'
  }

  predicate AllDigits(s: string) {
    forall i :: 0 <= i < |s| ==> IsDigit(s[i])
  }

  function DigitChar(d: int): (c: char)
    requires 0 <= d < 10
    ensures IsDigit(c)
  {
    ('0' as int + d) as char
  }

  function DigitValue(c: char): (d: int)
    requires IsDigit(c)
    ensures 0 <= d < 10
  {
    c as int - '0' as int
  }

  /** Decimal digits of `n`, most significant first, without leading zeros. */
  function Decimal(n: nat): (s: string)
    ensures |s| >= 1 && AllDigits(s)
  {
    if n < 10 then [DigitChar(n)] else Decimal(n / 10) + [DigitChar(n % 10)]
  }

  function ParseDecimal(s: string): nat
    requires AllDigits(s)
  {
    if |s| == 0 then 0 else ParseDecimal(s[..|s| - 1]) * 10 + DigitValue(s[|s| - 1])
  }

  lemma {:induction false} DecimalRoundTrip(n: nat)
    ensures ParseDecimal(Decimal(n)) == n
  {
    if n >= 10 {
      var s := Decimal(n);
      assert s[..|s| - 1] == Decimal(n / 10);
      DecimalRoundTrip(n / 10);
    }
  }

  /** How JavaScript prints an integer: a '-' before the magnitude's digits when negative. */
  function IntText(x: int): (s: string)
    ensures |s| >= 1 && ',' !in s
  {
    var s := if x < 0 then "-" + Decimal(-x) else Decimal(x);
    assert forall i :: 0 <= i < |s| ==> s[i] == '-' || IsDigit(s[i]);
    s
  }

  function ParseInt(s: string): (x: int) {
    if |s| > 0 && s[0] == '-' && AllDigits(s[1..]) then -(ParseDecimal(s[1..]) as int)
    else if AllDigits(s) then ParseDecimal(s)
    else 0
  }

  lemma IntTextRoundTrip(x: int)
    ensures ParseInt(IntText(x)) == x
  {
    if x < 0 {
      assert IntText(x)[1..] == Decimal(-x);
      DecimalRoundTrip(-x);
    } else {
      assert IsDigit(IntText(x)[0]);
      DecimalRoundTrip(x);
    }
  }

  /** `seat_numbers.join(',')`: the empty list gives the empty string. */
  function JoinSeats(seats: seq<int>): (s: string)
    ensures s == [] <==> seats == []
  {
    if |seats| == 0 then []
    else if |seats| == 1 then IntText(seats[0])
    else IntText(seats[0]) + "," + JoinSeats(seats[1..])
  }

  /** `s.split(',')`: always at least one (possibly empty) piece. */
  function SplitOnComma(s: string): (parts: seq<string>)
    ensures |parts| >= 1
  {
    if s == [] then [[]]
    else
      var rest := SplitOnComma(s[1..]);
      if s[0] == ',' then [[]] + rest else [[s[0]] + rest[0]] + rest[1..]
  }

  function ParseEach(parts: seq<string>): seq<int> {
    if parts == [] then [] else [ParseInt(parts[0])] + ParseEach(parts[1..])
  }

  /** Reads a label back into the seat list it was joined from. */
  function ParseSeats(s: string): seq<int> {
    if s == [] then [] else ParseEach(SplitOnComma(s))
  }

  lemma {:induction false} SplitWithoutComma(p: string)
    requires ',' !in p
    ensures SplitOnComma(p) == [p]
  {
    if p != [] {
      SplitWithoutComma(p[1..]);
      assert [p[0]] + p[1..] == p;
    }
  }

  lemma {:induction false} SplitAfterPiece(p: string, t: string)
    requires ',' !in p
    ensures SplitOnComma(p + "," + t) == [p] + SplitOnComma(t)
  {
    var s := p + "," + t;
    if p == [] {
      assert s[0] == ',' && s[1..] == t;
    } else {
      assert s[0] == p[0] && s[1..] == p[1..] + "," + t;
      SplitAfterPiece(p[1..], t);
      assert [p[0]] + p[1..] == p;
    }
  }

  lemma {:induction false} JoinSplitParse(seats: seq<int>)
    requires |seats| >= 1
    ensures ParseEach(SplitOnComma(JoinSeats(seats))) == seats
  {
    IntTextRoundTrip(seats[0]);
    if |seats| == 1 {
      SplitWithoutComma(IntText(seats[0]));
    } else {
      SplitAfterPiece(IntText(seats[0]), JoinSeats(seats[1..]));
      JoinSplitParse(seats[1..]);
      var parts := SplitOnComma(JoinSeats(seats));
      assert parts[0] == IntText(seats[0]) && parts[1..] == SplitOnComma(JoinSeats(seats[1..]));
    }
  }

  /** Joining loses nothing: the label parses back to the seat list. */
  lemma JoinSeatsRoundTrip(seats: seq<int>)
    ensures ParseSeats(JoinSeats(seats)) == seats
  {
    if seats != [] {
      JoinSplitParse(seats);
    }
  }

  /** Different seat lists never share a label. */
  lemma JoinSeatsInjective(a: seq<int>, b: seq<int>)
    requires JoinSeats(a) == JoinSeats(b)
    ensures a == b
  {
    JoinSeatsRoundTrip(a);
    JoinSeatsRoundTrip(b);
  }
}
