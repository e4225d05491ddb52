/** Strings, statuses and results shared by every component.

    A C++ `std::string` is modelled as a Dafny `string`; every character test in the
    source accepts ASCII only, so characters above 0x7F behave alike. */
module Text {
  datatype Option<+T> = None | Some(value: T)

  /** The statuses that the modelled code throws. */
  datatype Status =
    | BadRequest           // 400
    | Forbidden            // 403
    | NotFound             // 404
    | PayloadTooLarge      // 413
    | UriTooLong           // 414
    | HeaderFieldsTooLarge // 431
    | InternalServerError  // 500
    | NotImplemented       // 501
    | BadGateway           // 502

  /** A normal return, or the status of a thrown ResponseStatusException. */
  datatype Result<+T> = Ok(value: T) | Err(status: Status) {
    predicate IsFailure() { Err? }

    function PropagateFailure<U>(): Result<U>
      requires Err?
    {
      Err(status)
    }

    function Extract(): T
      requires Ok?
    {
      value
    }
  }

  const CRLF: string := "\r\n"

  const BLANK_LINE: string := "\r\n\r\n"

  /** `c_str()[i]`: the terminating NUL is readable, and nothing behind it is asked for. */
  function At(s: string, i: nat): char {
    if i < |s| then s[i] else '\0'
  }

  predicate IsHeaderChar(c: char) { ' ' <= c <= '~' }

  predicate IsVisible(c: char) { '!' <= c <= '~' }

  predicate Printable(s: string) {
    forall i | 0 <= i < |s| :: IsHeaderChar(s[i])
  }

  /** Whether `lit` stands in `s` at position `i` (strncmp, string::compare). */
  predicate HasAt(s: string, i: nat, lit: string) {
    i + |lit| <= |s| && s[i..i + |lit|] == lit
  }

  predicate IsCrlfAt(s: string, i: nat) {
    At(s, i) == '\r' && At(s, i + 1) == '\n'
  }

  lemma HasAtConcat(s: string, i: nat, a: string, b: string)
    ensures HasAt(s, i, a + b) <==> HasAt(s, i, a) && HasAt(s, i + |a|, b)
  {
    var m, n := i + |a|, i + |a| + |b|;
    if n <= |s| {
      assert s[i..n] == s[i..m] + s[m..n];
      if s[i..n] == a + b {
        assert s[i..m] == s[i..n][..|a|] == a;
        assert s[m..n] == s[i..n][|a|..] == b;
      }
    }
  }

  lemma HasAtChars(s: string, i: nat, lit: string)
    requires HasAt(s, i, lit)
    ensures forall k | 0 <= k < |lit| :: At(s, i + k) == lit[k]
  {
    forall k | 0 <= k < |lit| ensures At(s, i + k) == lit[k] {
      assert s[i + k] == s[i..i + |lit|][k];
    }
  }

  function LowerChar(c: char): char {
    if 'A' <= c <= 'Z' then ((c as int) + 32) as char else c
  }

  function Lower(s: string): (r: string)
    ensures |r| == |s|
    ensures forall i | 0 <= i < |s| :: r[i] == LowerChar(s[i])
  {
    seq(|s|, i requires 0 <= i < |s| => LowerChar(s[i]))
  }

  /** `s.find(pat, from)`. */
  function Find(s: string, pat: string, from: nat): (r: Option<nat>)
    ensures r.Some? ==> from <= r.value && r.value + |pat| <= |s|
    decreases |s| - from
  {
    if from + |pat| > |s| then None
    else if HasAt(s, from, pat) then Some(from)
    else Find(s, pat, from + 1)
  }

  /** `Find` returns the first occurrence, and None only when there is none. */
  lemma {:induction false} FindIsFirst(s: string, pat: string, from: nat)
    ensures match Find(s, pat, from)
            case Some(p) => from <= p && HasAt(s, p, pat) && forall q | from <= q < p :: !HasAt(s, q, pat)
            case None => forall q | from <= q :: !HasAt(s, q, pat)
    decreases |s| - from
  {
    if from + |pat| <= |s| && !HasAt(s, from, pat) {
      FindIsFirst(s, pat, from + 1);
    }
  }

  lemma FindUnique(s: string, pat: string, p: nat)
    requires HasAt(s, p, pat) && forall q | 0 <= q < p :: !HasAt(s, q, pat)
    ensures Find(s, pat, 0) == Some(p)
  {
    FindIsFirst(s, pat, 0);
  }

  /** Appending text never moves a first occurrence that was already there. */
  lemma FindAppend(s: string, t: string, pat: string)
    requires Find(s, pat, 0).Some?
    ensures Find(s + t, pat, 0) == Find(s, pat, 0)
  {
    FindIsFirst(s, pat, 0);
    var p := Find(s, pat, 0).value;
    assert (s + t)[p..p + |pat|] == s[p..p + |pat|];
    forall q | 0 <= q < p ensures !HasAt(s + t, q, pat) {
      assert !HasAt(s, q, pat);
      assert (s + t)[q..q + |pat|] == s[q..q + |pat|];
    }
    FindUnique(s + t, pat, p);
  }

  function Concat(parts: seq<string>): string {
    if parts == [] then "" else parts[0] + Concat(parts[1..])
  }

  lemma {:induction false} ConcatOneMore(parts: seq<string>, last: string)
    ensures Concat(parts + [last]) == Concat(parts) + last
    decreases |parts|
  {
    if parts == [] {
      assert [last][1..] == [];
    } else {
      assert (parts + [last])[1..] == parts[1..] + [last];
      ConcatOneMore(parts[1..], last);
    }
  }
}
