/**
 The text of a partial failure, and why the retry logic can take it for a gateway error: it looks
 for 502, 503 and 504 anywhere in the message, the numbers in it included.
 */
module ErrorText {

  function Digit(n: nat): char
    requires n < 10
  {
    '0' + n as char
  }

  function Decimal(n: nat): string {
    if n < 10 then [Digit(n)] else Decimal(n / 10) + [Digit(n % 10)]
  }

  /** The message of a partial failure. */
  function Message(booked: nat, total: nat): string {
    "Partial slices placed: " + Decimal(booked) + "/" + Decimal(total) + " units"
  }

  /** 502, 503 or 504 stands at index k. */
  predicate CodeAt(s: string, k: int) {
    0 <= k && k + 3 <= |s| && s[k] == '5' && s[k + 1] == '0' && '2' <= s[k + 2] <= '4'
  }

  ghost predicate HasCode(s: string) {
    exists k :: CodeAt(s, k)
  }

  /** The same read off the number. */
  predicate CodeInNumber(n: int) {
    n >= 502 && (502 <= n % 1000 <= 504 || CodeInNumber(n / 10))
  }

  predicate ReadsAsTimeout(booked: int, total: int) {
    CodeInNumber(booked) || CodeInNumber(total)
  }

  /** No code crosses a boundary that a code cannot contain. */
  lemma CodeInConcat(a: string, b: string)
    requires a != [] && b != []
    requires a[|a| - 1] !in "50" || b[0] !in "0234"
    ensures HasCode(a + b) <==> HasCode(a) || HasCode(b)
  {
    var s := a + b;
    if HasCode(s) {
      var k :| CodeAt(s, k);
      assert CodeAt(a, k) || CodeAt(b, k - |a|);
    }
    if HasCode(a) {
      var k :| CodeAt(a, k);
      assert CodeAt(s, k);
    }
    if HasCode(b) {
      var k :| CodeAt(b, k);
      assert s[k + |a|] == b[k] && CodeAt(s, k + |a|);
    }
  }

  lemma {:induction false} DecimalDigits(n: nat)
    ensures Decimal(n) != [] && forall i :: 0 <= i < |Decimal(n)| ==> '0' <= Decimal(n)[i] <= '9'
    ensures Decimal(n)[|Decimal(n)| - 1] == Digit(n % 10)
    ensures n >= 10 ==> |Decimal(n)| >= 2 && Decimal(n)[|Decimal(n)| - 2] == Digit(n / 10 % 10)
    ensures n >= 100 ==> |Decimal(n)| >= 3 && Decimal(n)[|Decimal(n)| - 3] == Digit(n / 100 % 10)
    ensures n < 100 ==> |Decimal(n)| <= 2
  {
    if n >= 10 {
      DecimalDigits(n / 10);
      assert n / 10 / 10 == n / 100;
    }
  }

  /** The digits of a number hold a code exactly when the number does. */
  lemma {:induction false} DecimalHasCodeIff(n: nat)
    ensures HasCode(Decimal(n)) <==> CodeInNumber(n)
  {
    var s := Decimal(n);
    DecimalDigits(n);
    if n >= 10 {
      var init := Decimal(n / 10);
      DecimalHasCodeIff(n / 10);
      assert s == init + [Digit(n % 10)];
      if HasCode(s) {
        var k :| CodeAt(s, k);
        assert CodeAt(init, k) || k == |s| - 3;
      }
      if HasCode(init) {
        var k :| CodeAt(init, k);
        assert CodeAt(s, k);
      }
      LastThree(n);
      if 502 <= n % 1000 <= 504 {
        assert CodeAt(s, |s| - 3);
      }
    }
  }

  lemma LastThree(n: nat)
    ensures n % 1000 == 100 * (n / 100 % 10) + 10 * (n / 10 % 10) + n % 10
  {
    var m, p := n / 10, n / 100;
    assert n == 10 * m + n % 10 && p == m / 10;
    assert m == 10 * p + m % 10;
    assert p == 10 * (p / 10) + p % 10;
    Remainder(n, p / 10, 100 * (p % 10) + 10 * (m % 10) + n % 10);
  }

  lemma Remainder(n: int, q: int, r: int)
    requires n == 1000 * q + r && 0 <= r < 1000
    ensures n % 1000 == r
  {
  }

  /** The whole message holds a code exactly when one of its two numbers does. */
  lemma ReadsAsTimeoutIff(booked: nat, total: nat)
    ensures HasCode(Message(booked, total)) <==> ReadsAsTimeout(booked, total)
  {
    var a, x, y := "Partial slices placed: ", Decimal(booked), Decimal(total);
    DecimalDigits(booked);
    DecimalDigits(total);
    DecimalHasCodeIff(booked);
    DecimalHasCodeIff(total);
    assert a[|a| - 1] == ' ' && forall i :: 0 <= i < |a| ==> a[i] != '5';
    assert !HasCode(a) && !HasCode("/") && !HasCode(" units");
    hide CodeAt, HasCode, Decimal, CodeInNumber;
    CodeInConcat(a, x);
    CodeInConcat(a + x, "/");
    CodeInConcat(a + x + "/", y);
    CodeInConcat(a + x + "/" + y, " units");
  }
}
