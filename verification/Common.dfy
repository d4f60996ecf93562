// Small values every module uses: optional values, results with the repository's errors,
// and the text normalisation its validators share.

module Common {
  datatype Option<+T> = None | Some(value: T)

  datatype Error =
    | ValueError
    | RunAlreadyExists
    | RunNotFound
    | IdempotencyConflict
    | CompareAndSwap
    | InvalidTransition
    | LeaseConflict
    | NotPending
    | UnknownReceipt
    | ActionInProgress
    | CallbackRaised

  datatype Result<+T> = Ok(value: T) | Err(error: Error)

  type Time = real

  predicate IsSpace(c: char) {
    var n := c as int;
    || 0x9 <= n <= 0xD || 0x1C <= n <= 0x20 || n == 0x85 || n == 0xA0 || n == 0x1680
    || 0x2000 <= n <= 0x200A || n == 0x2028 || n == 0x2029 || n == 0x202F || n == 0x205F || n == 0x3000
  }

  function TrimLeft(s: string): string {
    if s != [] && IsSpace(s[0]) then TrimLeft(s[1..]) else s
  }

  function TrimRight(s: string): string {
    if s != [] && IsSpace(s[|s| - 1]) then TrimRight(s[..|s| - 1]) else s
  }

  /** Removes white space at both ends. */
  function Strip(s: string): string {
    TrimRight(TrimLeft(s))
  }

  lemma {:induction false} TrimLeftShape(s: string)
    ensures var r := TrimLeft(s); |r| <= |s| && r == s[|s| - |r|..] && (r != [] ==> !IsSpace(r[0]))
  {
    if s != [] && IsSpace(s[0]) { TrimLeftShape(s[1..]); }
  }

  lemma {:induction false} TrimRightShape(s: string)
    ensures var r := TrimRight(s); |r| <= |s| && r == s[..|r|] && (r != [] ==> !IsSpace(r[|r| - 1]))
  {
    if s != [] && IsSpace(s[|s| - 1]) { TrimRightShape(s[..|s| - 1]); }
  }

  /** Stripping is idempotent: what it returns has no white space at either end. */
  lemma StripTwice(s: string)
    ensures Strip(Strip(s)) == Strip(s)
  {
    TrimLeftShape(s);
    TrimRightShape(TrimLeft(s));
  }

  predicate Blank(s: string) {
    Strip(s) == []
  }

  /** A compact identifier: non-blank, at most 200 characters, no white space inside. */
  predicate Identifier(s: string) {
    var n := Strip(s);
    n != [] && |n| <= 200 && forall i :: 0 <= i < |n| ==> !IsSpace(n[i])
  }

  predicate AllSpace(s: string) {
    forall i :: 0 <= i < |s| ==> IsSpace(s[i])
  }

  lemma {:induction false} TrimmedLeft(s: string)
    ensures |TrimLeft(s)| <= |s| && AllSpace(s[..|s| - |TrimLeft(s)|])
  {
    if s != [] && IsSpace(s[0]) {
      TrimmedLeft(s[1..]);
      var n := |s| - |TrimLeft(s)|;
      assert forall i :: 1 <= i < n ==> s[i] == s[1..][..n - 1][i - 1];
    }
  }

  lemma {:induction false} TrimmedRight(s: string)
    ensures |TrimRight(s)| <= |s| && AllSpace(s[|TrimRight(s)|..])
  {
    if s != [] && IsSpace(s[|s| - 1]) {
      var front := s[..|s| - 1];
      TrimmedRight(front);
      assert forall i :: |TrimRight(s)| <= i < |s| - 1 ==> s[i] == front[|TrimRight(s)|..][i - |TrimRight(s)|];
    }
  }

  /** Stripping takes white space off both ends, all of it and nothing else; a text is blank iff
      it is all white space. */
  lemma StripIs(s: string) returns (before: string, after: string)
    ensures s == before + Strip(s) + after && AllSpace(before) && AllSpace(after)
    ensures Strip(s) != [] ==> !IsSpace(Strip(s)[0]) && !IsSpace(Strip(s)[|Strip(s)| - 1])
    ensures Blank(s) <==> AllSpace(s)
  {
    var t := TrimLeft(s);
    TrimmedLeft(s);
    TrimLeftShape(s);
    TrimmedRight(t);
    TrimRightShape(t);
    before, after := s[..|s| - |t|], t[|Strip(s)|..];
    assert t == Strip(s) + after;
    assert s == before + t;
    if Strip(s) != [] { assert s[|before|] == Strip(s)[0]; }
  }

  function Prefix(s: string, n: nat): (r: string) {
    if |s| <= n then s else s[..n]
  }
}
