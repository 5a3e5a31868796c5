/** The two rules of `components/Forms/VerifyTokenForm.tsx` that are not
    presentation: the masking of the address the code was sent to, and the
    length check on the code itself. */
module VerifyToken {
  import opened Wrappers
  import opened Slugs

  /** `"*".repeat(n)`. */
  function Stars(n: nat): (r: string)
    ensures |r| == n && forall i :: 0 <= i < n ==> r[i] == '*'
  {
    seq(n, _ => '*')
  }

  /** `s.charAt(i)`: the one-character string at `i`, or "" outside the string. */
  function CharAt(s: string, i: int): (r: string)
    ensures 0 <= i < |s| ==> r == [s[i]]
    ensures !(0 <= i < |s|) ==> r == ""
  {
    if 0 <= i < |s| then [s[i]] else ""
  }

  /** The masked user name: the first character, `max(1, n - 2)` stars, the last character. */
  function MaskLocal(username: string): (r: string)
    ensures '*' in r
  {
    var n := |username|;
    var stars := Stars(if n - 2 > 1 then n - 2 else 1);
    assert (CharAt(username, 0) + stars)[|CharAt(username, 0)|] == '*';
    CharAt(username, 0) + stars + CharAt(username, n - 1)
  }

  /** The second piece of `email.split("@")`: the text between the first and
      the second `@`; `undefined`, rendered as the text "undefined", when the
      address has no `@`. */
  function DomainText(email: string): (r: string)
  {
    var local := LocalPart(email);
    if |local| == |email| then "undefined" else LocalPart(email[|local| + 1..])
  }

  /** `maskEmail(email)`. */
  function MaskEmail(email: string): string
  {
    MaskLocal(LocalPart(email)) + "@" + DomainText(email)
  }

  /** A name of three or more characters keeps its length and its first and
      last characters, and everything between them is a star. */
  lemma MaskLongName(username: string)
    requires |username| >= 3
    ensures var r := MaskLocal(username);
      && |r| == |username|
      && r[0] == username[0] && r[|r| - 1] == username[|username| - 1]
      && forall i :: 0 < i < |r| - 1 ==> r[i] == '*'
  {
    var n := |username|;
    var r := MaskLocal(username);
    assert r == [username[0]] + Stars(n - 2) + [username[n - 1]];
    forall i | 0 < i < n - 1 ensures r[i] == '*' {
      assert r[i] == Stars(n - 2)[i - 1];
    }
  }

  /** Names of up to two characters still get one star: "" becomes "*", "a"
      becomes "a*a" and "ab" becomes "a*b". */
  lemma MaskShortName(username: string)
    requires |username| <= 2
    ensures MaskLocal(username) == CharAt(username, 0) + "*" + CharAt(username, |username| - 1)
  {
  }

  /** For an address `local@domain` with a single `@`, the domain comes
      through unchanged and only the local part is masked. */
  lemma {:induction false} DomainPreserved(local: string, domain: string)
    requires '@' !in local && '@' !in domain
    ensures MaskEmail(local + "@" + domain) == MaskLocal(local) + "@" + domain
  {
    var email := local + "@" + domain;
    LocalPartDomainFree(local, domain);
    assert email[|local| + 1..] == domain;
    NoAtIsWhole(domain);
  }

  /** A text without `@` is its own local part. */
  lemma {:induction false} NoAtIsWhole(s: string)
    requires '@' !in s
    ensures LocalPart(s) == s
  {
    if s != [] {
      assert '@' !in s[1..];
      NoAtIsWhole(s[1..]);
    }
  }

  /** An address without `@` keeps the whole text as the name, and the
      template prints the missing domain as "undefined". */
  lemma NoDomain(email: string)
    requires '@' !in email
    ensures MaskEmail(email) == MaskLocal(email) + "@undefined"
  {
    NoAtIsWhole(email);
  }

  /** `z.string().min(6, …)`: a code shorter than six characters is refused
      before it is submitted, with the schema's message. */
  function OtpError(otp: string): (r: Option<string>)
    ensures r.None? <==> |otp| >= 6
    ensures r.Some? ==> r.value == "Your verification code must be 6 digits."
  {
    if |otp| < 6 then Some("Your verification code must be 6 digits.") else None
  }
}
