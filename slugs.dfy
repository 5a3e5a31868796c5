/** The organization slug derived from an email address.

    Both `createUser` and the OAuth sign-in helper name a new organization
    after the part of the email before the first `@`: they append `-org`,
    lower-case the result and turn every character outside `[a-z0-9-]`
    into `-`. */
module Slugs {
  import opened Strings

  /** A character the slug pattern `[a-z0-9-]` keeps. */
  predicate IsSlugChar(c: char)
  {
    IsLowerAscii(c) || IsDigit(c) || c == '-'
  }

  /** `email.split("@")[0]`: everything before the first `@` (all of it when there is none). */
  function LocalPart(email: string): (r: string)
    ensures IsPrefix(r, email)
    ensures '@' !in r
    ensures |r| < |email| ==> email[|r|] == '@'
  {
    if email == [] || email[0] == '@' then []
    else [email[0]] + LocalPart(email[1..])
  }

  /** One character of `.toLowerCase().replace(/[^a-z0-9-]/g, "-")`. */
  function SlugChar(c: char): (r: char)
    ensures IsSlugChar(r)
    ensures IsSlugChar(c) ==> r == c
    ensures IsUpperAscii(c) ==> r == LowerChar(c)
  {
    var l := LowerChar(c);
    if IsSlugChar(l) then l else '-'
  }

  /** `s.toLowerCase().replace(/[^a-z0-9-]/g, "-")`, character by character. */
  function Slugify(s: string): (r: string)
    ensures |r| == |s|
    ensures forall i :: 0 <= i < |s| ==> r[i] == SlugChar(s[i])
  {
    seq(|s|, i requires 0 <= i < |s| => SlugChar(s[i]))
  }

  /** `` `${email.split("@")[0]}-org`.toLowerCase().replace(/[^a-z0-9-]/g, "-") ``. */
  function EmailSlug(email: string): string
  {
    Slugify(LocalPart(email) + "-org")
  }

  /** The slug is as long as the local part plus four, uses only `[a-z0-9-]`
      and ends in `-org`. */
  lemma EmailSlugShape(email: string)
    ensures |EmailSlug(email)| == |LocalPart(email)| + 4
    ensures forall i :: 0 <= i < |EmailSlug(email)| ==> IsSlugChar(EmailSlug(email)[i])
    ensures EmailSlug(email)[|LocalPart(email)|..] == "-org"
  {
    var s, n := LocalPart(email) + "-org", |LocalPart(email)|;
    assert s[n] == '-' && s[n + 1] == 'o' && s[n + 2] == 'r' && s[n + 3] == 'g';
  }

  /** The local part's characters map one for one onto the slug's. */
  lemma EmailSlugPrefix(email: string)
    ensures Slugify(LocalPart(email)) == EmailSlug(email)[..|LocalPart(email)|]
  {
    var local := LocalPart(email);
    assert forall i :: 0 <= i < |local| ==> (local + "-org")[i] == local[i];
  }

  /** Only the part before the first `@` matters: two addresses with the same
      local part get the same slug, whatever their domains. */
  lemma {:induction false} LocalPartDomainFree(local: string, domain: string)
    requires '@' !in local
    ensures LocalPart(local + "@" + domain) == local
  {
    if local != [] {
      assert (local + "@" + domain)[1..] == local[1..] + "@" + domain;
      LocalPartDomainFree(local[1..], domain);
    } else {
      assert (local + "@" + domain)[0] == '@';
    }
  }

  /** Applying the sanitizer to a slug changes nothing. */
  lemma SlugifyIdempotent(s: string)
    ensures Slugify(Slugify(s)) == Slugify(s)
  {
  }

  /** A string already in `[a-z0-9-]` is its own slug. */
  lemma SlugifyFixesSlugs(s: string)
    requires forall i :: 0 <= i < |s| ==> IsSlugChar(s[i])
    ensures Slugify(s) == s
  {
  }
}
