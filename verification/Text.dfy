/** The string building shared by the tasks: strconv.Itoa of a natural number and strings.Join. */
module Text {
  function Digit(d: nat): char
    requires d < 10
  {
    (48 + d) as char
  }

  function Itoa(n: nat): (s: string)
    ensures s != ""
  {
    if n < 10 then [Digit(n)] else Itoa(n / 10) + [Digit(n % 10)]
  }

  function Atoi(s: string): int {
    if s == "" then 0 else 10 * Atoi(s[..|s| - 1]) + (s[|s| - 1] as int - 48)
  }

  lemma {:induction false} AtoiOfItoa(n: nat)
    ensures Atoi(Itoa(n)) == n
    ensures forall c :: c in Itoa(n) ==> '0' <= c <= '9'
  {
    if n < 10 {
      assert Itoa(n)[..0] == "";
    } else {
      AtoiOfItoa(n / 10);
      assert Itoa(n)[..|Itoa(n)| - 1] == Itoa(n / 10);
    }
  }

  lemma ItoaOfPorts()
    ensures Itoa(0) == "0" && Itoa(9) == "9" && Itoa(10) == "10" && Itoa(443) == "443" && Itoa(65535) == "65535"
  {
    assert Itoa(44) == "44";
    assert Itoa(65) == "65";
    assert Itoa(655) == "655";
    assert Itoa(6553) == "6553";
  }

  lemma {:induction false} ItoaInjective(m: nat, n: nat)
    requires Itoa(m) == Itoa(n)
    ensures m == n
  {
    AtoiOfItoa(m);
    AtoiOfItoa(n);
  }

  function Join(parts: seq<string>, sep: char): string {
    if parts == [] then ""
    else if |parts| == 1 then parts[0]
    else parts[0] + [sep] + Join(parts[1..], sep)
  }

  predicate Without(sep: char, parts: seq<string>) {
    forall p :: p in parts ==> sep !in p
  }

  /** The text before the first separator is determined by the whole. */
  lemma CutAtSeparator(a: string, x: string, b: string, y: string, sep: char)
    requires sep !in a && sep !in b && a + [sep] + x == b + [sep] + y
    ensures a == b && x == y
  {
    var s, t := a + [sep] + x, b + [sep] + y;
    assert s[|a|] == sep && t[|b|] == sep;
    assert forall k :: 0 <= k < |a| ==> s[k] == a[k];
    assert forall k :: 0 <= k < |b| ==> t[k] == b[k];
    assert s[..|a|] == a && t[..|b|] == b;
    assert s[|a| + 1..] == x && t[|b| + 1..] == y;
  }

  /** Joining loses nothing when no part contains the separator and the number of parts is known. */
  lemma {:induction false} JoinInjective(p: seq<string>, q: seq<string>, sep: char)
    requires |p| == |q| && Without(sep, p) && Without(sep, q) && Join(p, sep) == Join(q, sep)
    ensures p == q
  {
    if |p| == 1 {
      assert p == [p[0]] && q == [q[0]];
    } else if |p| > 1 {
      CutAtSeparator(p[0], Join(p[1..], sep), q[0], Join(q[1..], sep), sep);
      JoinInjective(p[1..], q[1..], sep);
      assert p == [p[0]] + p[1..] && q == [q[0]] + q[1..];
    }
  }
}
