/**
 * The e-mail normaliser used to store and look up user accounts: the
 * address without surrounding white space, in lower case, with a missing
 * address read as the empty one.
 */
module Email {
  import opened Wrappers
  import opened Text

  /** EmailNormalizer.Normalize (and the login's own copy of the same expression). */
  function Normalize(email: Option<string>): (r: string)
    ensures Trimmed(DotNet, r)
    ensures forall i :: 0 <= i < |r| ==> !IsUpper(r[i])
  {
    var s := Trim(DotNet, email.GetOr(""));
    LowerTrimmed(DotNet, s);
    LowerHasNoUpper(s);
    Lower(s)
  }

  /** A missing address normalises to the empty string. */
  lemma NormalizeNull()
    ensures Normalize(None) == ""
  {
  }

  /** Normalising twice changes nothing. */
  lemma NormalizeIdempotent(email: Option<string>)
    ensures Normalize(Some(Normalize(email))) == Normalize(email)
  {
    var r := Normalize(email);
    TrimUnique(DotNet, [], r, []);
    assert [] + r + [] == r;
    LowerIdempotent(Trim(DotNet, email.GetOr("")));
  }

  /** Addresses that differ only in case and in white space around them normalise equally. */
  lemma NormalizeIgnoresCaseAndPadding(a: string, x: string, b: string, y: string)
    requires AllSpace(DotNet, a) && AllSpace(DotNet, b)
    requires Lower(x) == Lower(y)
    ensures Normalize(Some(a + x + b)) == Normalize(Some(y))
  {
    TrimIgnoresPadding(DotNet, a, x, b);
    TrimLowerCommute(DotNet, x);
    TrimLowerCommute(DotNet, y);
  }

  /** An address already trimmed and without capitals is kept as it is. */
  lemma NormalizeKeepsNormal(s: string)
    requires Trimmed(DotNet, s)
    requires forall i :: 0 <= i < |s| ==> !IsUpper(s[i])
    ensures Normalize(Some(s)) == s
  {
    TrimUnique(DotNet, [], s, []);
    assert [] + s + [] == s;
    LowerNoUpper(s);
  }
}
