/** The names of managed rules: how the plugin prints them and how it recognises them again. */
module Names {
  import opened Gateway

  predicate IsDigit(c: char) {
    '0' <= c <= '9'
  }

  predicate AllDigits(s: string) {
    forall i :: 0 <= i < |s| ==> IsDigit(s[i])
  }

  function DigitsValue(s: string): nat
    requires AllDigits(s)
  {
    if s == "" then 0
    else DigitsValue(s[..|s| - 1]) * 10 + (s[|s| - 1] as int - '0' as int)
  }

  /** `strconv.Atoi`: an optional sign, at least one decimal digit, a value that fits a Go `int`. */
  function Atoi(s: string): Option<int> {
    var signed := s != "" && (s[0] == '+' || s[0] == '-');
    var digits := if signed then s[1..] else s;
    if digits == "" || !AllDigits(digits) then None
    else
      var magnitude: int := DigitsValue(digits);
      var value := if signed && s[0] == '-' then -magnitude else magnitude;
      if MIN_INT <= value <= MAX_INT then Some(value) else None
  }

  function Digit(d: nat): char
    requires d < 10
  {
    '0' + d as char
  }

  /** The verb `%d` on a non-negative integer. */
  function PrintNat(n: nat): string {
    if n < 10 then [Digit(n)] else PrintNat(n / 10) + [Digit(n % 10)]
  }

  /** The name of the managed rule at position `idx` of a managed route. */
  function RuleName(base: string, idx: nat): string {
    if idx == 0 then base else base + "-" + PrintNat(idx)
  }

  /** The recogniser for one base name. */
  predicate InFamily(base: string, name: string) {
    name == base || (base + "-" <= name && Atoi(name[|base| + 1..]).Some?)
  }

  ghost predicate ManagedName(name: string, bases: set<string>) {
    exists base :: base in bases && InFamily(base, name)
  }

  /** Go visits the map in an unspecified order; the answer is the same for every order. */
  method IsManagedRuleName(name: string, bases: set<string>) returns (managed: bool)
    ensures managed <==> ManagedName(name, bases)
  {
    if name in bases {
      assert InFamily(name, name);
      return true;
    }
    var todo := bases;
    while todo != {}
      invariant todo <= bases
      invariant forall base :: base in bases && base !in todo ==> !InFamily(base, name)
      decreases todo
    {
      var base :| base in todo;
      var prefix := base + "-";
      if prefix <= name && Atoi(name[|prefix|..]).Some? {
        assert InFamily(base, name);
        return true;
      }
      todo := todo - {base};
    }
    return false;
  }

  // ----- printing and reading back

  lemma {:induction false} PrintedDigits(n: nat)
    ensures PrintNat(n) != "" && AllDigits(PrintNat(n))
    ensures DigitsValue(PrintNat(n)) == n
  {
    if n >= 10 {
      PrintedDigits(n / 10);
      assert PrintNat(n)[..|PrintNat(n)| - 1] == PrintNat(n / 10);
    } else {
      assert PrintNat(n)[..0] == "";
    }
  }

  /** Reading back what the plugin prints, with or without a sign, gives the number if it fits a Go `int`, and an
      error otherwise; so printing is injective. */
  lemma {:induction false} AtoiPrint(n: nat)
    ensures Atoi(PrintNat(n)) == if n <= MAX_INT then Some(n) else None
    ensures Atoi("+" + PrintNat(n)) == if n <= MAX_INT then Some(n) else None
    ensures Atoi("-" + PrintNat(n)) == if n <= MAX_INT + 1 then Some(-(n as int)) else None
  {
    PrintedDigits(n);
    assert IsDigit(PrintNat(n)[0]);
    assert ("+" + PrintNat(n))[1..] == PrintNat(n) && ("-" + PrintNat(n))[1..] == PrintNat(n);
  }

  lemma {:induction false} NoLeadingZero(n: nat)
    requires n > 0
    ensures PrintNat(n)[0] != '0'
  {
    if n >= 10 {
      NoLeadingZero(n / 10);
    }
  }

  /** What the printed names are: the first is the base name, the others are the base name, a dash and the position
      in plain decimal digits. */
  lemma {:induction false} PrintedNames(base: string, idx: nat)
    requires idx <= MAX_INT
    ensures idx == 0 ==> RuleName(base, idx) == base
    ensures idx > 0 ==>
              var name := RuleName(base, idx);
              && base + "-" < name
              && AllDigits(name[|base| + 1..]) && name[|base| + 1] != '0'
              && Atoi(name[|base| + 1..]) == Some(idx)
  {
    PrintedDigits(idx);
    AtoiPrint(idx);
    if idx > 0 {
      NoLeadingZero(idx);
      assert RuleName(base, idx)[|base| + 1..] == PrintNat(idx);
    }
  }

  lemma {:induction false} RuleNameInjective(base: string, i: nat, j: nat)
    ensures RuleName(base, i) == RuleName(base, j) <==> i == j
  {
    PrintedDigits(i);
    PrintedDigits(j);
    if RuleName(base, i) == RuleName(base, j) {
      if i != 0 {
        assert RuleName(base, i)[|base| + 1..] == PrintNat(i);
      }
      if j != 0 {
        assert RuleName(base, j)[|base| + 1..] == PrintNat(j);
      }
    }
  }

  /** Every name the plugin prints is recognised as its own. */
  lemma {:induction false} PrintedInFamily(base: string, idx: nat)
    requires idx <= MAX_INT
    ensures InFamily(base, RuleName(base, idx))
  {
    if idx != 0 {
      AtoiPrint(idx);
      assert RuleName(base, idx)[|base| + 1..] == PrintNat(idx);
    }
  }

  // ----- when two families meet

  /** `longer` is `base` and a dash, followed by nothing or by something `Atoi` accepts. */
  predicate Prolongs(base: string, longer: string) {
    base + "-" <= longer
    && (longer == base + "-" || Atoi(longer[|base| + 1..]).Some?)
  }

  predicate Entangled(a: string, b: string) {
    a == b || Prolongs(a, b) || Prolongs(b, a)
  }

  lemma {:induction false} NoInnerDash(s: string, k: nat)
    requires 1 <= k < |s| && s[k] == '-'
    ensures Atoi(s).None?
  {
    var digits := if s[0] == '+' || s[0] == '-' then s[1..] else s;
    var at := if s[0] == '+' || s[0] == '-' then k - 1 else k;
    assert digits[at] == '-' && !IsDigit(digits[at]);
  }

  lemma {:induction false} LongerMeets(a: string, b: string, name: string)
    requires InFamily(a, name) && InFamily(b, name) && |a| < |b|
    ensures Prolongs(a, b)
  {
    assert name[..|a| + 1] == a + "-";
    assert name[..|b|] == b;
    assert b[..|a| + 1] == name[..|b|][..|a| + 1] == name[..|a| + 1];
    if name != b && b != a + "-" {
      var s := name[|a| + 1..];
      assert s[|b| - |a| - 1] == name[|b|] == (b + "-")[|b|] == '-';
      NoInnerDash(s, |b| - |a| - 1);
    }
  }

  /** Two managed route names own a common rule name exactly when they are entangled. */
  lemma {:induction false} FamiliesMeet(a: string, b: string)
    ensures (exists name :: InFamily(a, name) && InFamily(b, name)) <==> Entangled(a, b)
  {
    if name :| InFamily(a, name) && InFamily(b, name) {
      if |a| < |b| {
        LongerMeets(a, b, name);
      } else if |b| < |a| {
        LongerMeets(b, a, name);
      } else {
        assert name[..|a|] == a && name[..|b|] == b;
      }
    }
    if Entangled(a, b) {
      MeetingPoint(a, b);
      MeetingPoint(b, a);
    }
  }

  lemma {:induction false} MeetingPoint(a: string, b: string)
    requires a == b || Prolongs(a, b) || Prolongs(b, a)
    ensures a == b || Prolongs(a, b) ==> exists name :: InFamily(a, name) && InFamily(b, name)
  {
    if a == b {
      assert InFamily(a, a) && InFamily(b, a);
    } else if b == a + "-" {
      var name := b + "-1";
      assert name[|a| + 1..] == "-1" && name[|b| + 1..] == "1";
      assert "-1"[1..] == "1" && "1"[..0] == "";
      assert DigitsValue("1") == 1;
      assert InFamily(a, name) && InFamily(b, name);
    } else if Prolongs(a, b) {
      assert InFamily(a, b) && InFamily(b, b);
    }
  }

  /** The form the other proofs use: untangled names never own each other's rules. */
  lemma {:induction false} ForeignName(a: string, b: string, idx: nat)
    requires !Entangled(a, b) && idx <= MAX_INT
    ensures !InFamily(a, RuleName(b, idx))
  {
    PrintedInFamily(b, idx);
    FamiliesMeet(a, b);
  }

  /** The ways in which the base name "a" owns names that are not printed for it, or that "a-" owns too. */
  lemma {:induction false} SurprisingFamilies()
    ensures InFamily("a", "a-1") && InFamily("a", "a-+1") && InFamily("a", "a--1") && InFamily("a", "a-01")
    ensures InFamily("a-", "a--1")
  {
    assert "1"[..0] == "" && DigitsValue("1") == 1;
    assert "a-1"[2..] == "1" && "a-+1"[2..] == "+1" && "a--1"[2..] == "-1" && "a--1"[3..] == "1";
    assert "+1"[1..] == "1" && "-1"[1..] == "1";
    assert "a-01"[2..] == "01" && "01"[..1] == "0" && "0"[..0] == "" && DigitsValue("01") == 1;
  }

  lemma {:induction false} OtherFamilies()
    ensures !InFamily("a", "a-x") && !InFamily("a", "a-1-1") && !InFamily("a", "a-") && !InFamily("a", "a-+")
    ensures !InFamily("a", "a1") && !InFamily("a", "b-1")
  {
    assert "a-x"[2..] == "x" && !IsDigit("x"[0]);
    assert "a-"[2..] == "" && "a-+"[2..] == "+" && "+"[1..] == "";
    assert "a1"[1] != "a-"[1] && "b-1"[0] != "a-"[0];
    assert "a-1-1"[2..] == "1-1";
    NoInnerDash("1-1", 1);
  }
}
