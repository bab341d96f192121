/** What several of the models need. */
module Common {
  datatype Option<T> = None | Some(value: T)

  predicate IsDigit(c: char) {
    '0' <= c <= '9'
  }

  /** The value of a string of decimal digits, leading zeros allowed. */
  function Digits(s: string): Option<nat> {
    if s == "" then Some(0)
    else
      var rest, last := Digits(s[..|s| - 1]), s[|s| - 1];
      if rest == None || !IsDigit(last) then None else Some(rest.value * 10 + (last - '0') as nat)
  }

  /** A number in decimal digits. */
  function Itoa(n: nat): (s: string)
    ensures s != ""
  {
    var digit := ['0' + (n % 10) as char];
    if n < 10 then digit else Itoa(n / 10) + digit
  }

  lemma {:induction false} ItoaBack(n: nat)
    ensures Digits(Itoa(n)) == Some(n)
    ensures n > 0 ==> Itoa(n)[0] != '0'
  {
    var s, last := Itoa(n), '0' + (n % 10) as char;
    assert s[|s| - 1] == last;
    if n < 10 {
      assert s[..|s| - 1] == "";
    } else {
      ItoaBack(n / 10);
      assert s[..|s| - 1] == Itoa(n / 10);
    }
  }

  lemma Associate<A>(a: seq<A>, b: seq<A>, c: seq<A>)
    ensures a + b + c == a + (b + c)
  {
  }
}
