/**
  The request validators of the user routes: the sign-up email, checked
  by both `z.string().email()` and the pattern `emailRegex`, the optional
  sign-up photo, and the profile-update rules (at most five links, each
  named, each matching `linksRegex`, with pairwise distinct URLs, and a
  `data` object that must be present). `.email()` is the address pattern
  of zod 3.22 and later; `z.string().url()` is not part of this model.
 */
module UserValidation {
  import opened Common
  import opened LinkPattern
  import opened UserModel
  import opened Database
  import opened UserServices

  // ---------------------------------------------------------------------------
  // The email pattern ^[\w.-]+@[a-zA-Z\d-]+\.[a-zA-Z]{2,}$

  predicate IsLetter(c: char) {
    ('a' <= c <= 'z') || ('A' <= c <= 'Z')
  }

  predicate IsDigitChar(c: char) {
    '0' <= c <= '9'
  }

  /** `[\w.-]`. */
  predicate IsLocalChar(c: char) {
    IsLetter(c) || IsDigitChar(c) || c == '_' || c == '.' || c == '-'
  }

  /** `[a-zA-Z\d-]`. */
  predicate IsDomainChar(c: char) {
    IsLetter(c) || IsDigitChar(c) || c == '-'
  }

  /** `s` splits at `a` (the `@`) and `b` (the `.`) into a non-empty local
      part, a non-empty domain label and a top-level label of two or more letters. */
  predicate EmailSplit(s: string, a: int, b: int) {
    && 0 < a && a + 1 < b && b + 2 < |s|
    && s[a] == '@' && s[b] == '.'
    && (forall k :: 0 <= k < a ==> IsLocalChar(s[k]))
    && (forall k :: a < k < b ==> IsDomainChar(s[k]))
    && (forall k :: b < k < |s| ==> IsLetter(s[k]))
  }

  /** `emailRegex.test(s)`. */
  ghost predicate IsEmail(s: string) {
    exists a, b :: EmailSplit(s, a, b)
  }

  /** The local part ends exactly where the scan of local characters stops. */
  lemma LocalPartEnds(s: string, i: int)
    requires 0 <= i <= |s|
    requires forall k :: 0 <= k < i ==> IsLocalChar(s[k])
    requires i == |s| || !IsLocalChar(s[i])
    ensures forall a, b :: EmailSplit(s, a, b) ==> a == i
  {
    forall a, b | EmailSplit(s, a, b)
      ensures a == i
    {
    }
  }

  /** The domain label ends exactly where the scan of domain characters stops. */
  lemma DomainPartEnds(s: string, i: int, j: int)
    requires 0 <= i < j <= |s|
    requires forall k :: i < k < j ==> IsDomainChar(s[k])
    requires j == |s| || !IsDomainChar(s[j])
    ensures forall b :: EmailSplit(s, i, b) ==> b == j
  {
    forall b | EmailSplit(s, i, b)
      ensures b == j
    {
    }
  }

  /** A left-to-right matcher for the email pattern. */
  method MatchEmail(s: string) returns (ok: bool)
    ensures ok <==> IsEmail(s)
  {
    var i := 0;
    while i < |s| && IsLocalChar(s[i])
      invariant 0 <= i <= |s|
      invariant forall k :: 0 <= k < i ==> IsLocalChar(s[k])
    {
      i := i + 1;
    }
    LocalPartEnds(s, i);
    if i == 0 || i == |s| || s[i] != '@' {
      return false;
    }
    var j := i + 1;
    while j < |s| && IsDomainChar(s[j])
      invariant i + 1 <= j <= |s|
      invariant forall k :: i < k < j ==> IsDomainChar(s[k])
    {
      j := j + 1;
    }
    DomainPartEnds(s, i, j);
    if j == i + 1 || j == |s| || s[j] != '.' {
      return false;
    }
    var k := j + 1;
    while k < |s| && IsLetter(s[k])
      invariant j + 1 <= k <= |s|
      invariant forall m :: j < m < k ==> IsLetter(s[m])
    {
      k := k + 1;
    }
    ok := k == |s| && j + 2 < |s|;
    if ok {
      assert EmailSplit(s, i, j);
    }
  }

  /** A well-formed address is accepted. */
  lemma SampleEmailAccepted()
    ensures IsEmail("a.b@x-y.io")
  {
    assert EmailSplit("a.b@x-y.io", 3, 7);
  }

  /** An address whose domain part holds two dots (`a@b.c.de`) is refused:
      the domain label may not contain a dot and the top-level label is
      letters only. */
  lemma DottedDomainRefused(s: string, a: int, b: int, c: int)
    requires 0 <= a < b < c < |s|
    requires s[a] == '@' && s[b] == '.' && s[c] == '.'
    ensures !IsEmail(s)
  {
    assert !IsLocalChar(s[a]) && !IsDomainChar(s[a]) && !IsLetter(s[a]);
    assert !IsDomainChar(s[b]) && !IsLetter(s[c]);
    forall a', b' ensures !EmailSplit(s, a', b') {
    }
  }

  // ---------------------------------------------------------------------------
  // Sign-up

  /** What `z.string().email()` adds to `emailRegex` when the `@` is at `a`:
      the local part neither starts nor ends with a dot and has no two dots
      in a row, and the domain label does not start with a hyphen. */
  predicate ZodEmailExtra(s: string, a: int) {
    && 0 < a < |s| - 1
    && s[0] != '.' && s[a - 1] != '.'
    && (forall k :: 0 <= k < a - 1 ==> !(s[k] == '.' && s[k + 1] == '.'))
    && s[a + 1] != '-'
  }

  /** The sign-up email: both `.email()` and `emailRegex` accept it. */
  ghost predicate IsSignupEmail(s: string) {
    exists a, b :: EmailSplit(s, a, b) && ZodEmailExtra(s, a)
  }

  /** An address `emailRegex` accepts but `.email()` refuses: a dot right
      before the `@`. */
  lemma DotBeforeAtRefused()
    ensures IsEmail("a.@x.io")
    ensures !IsSignupEmail("a.@x.io")
  {
    var s := "a.@x.io";
    assert EmailSplit(s, 2, 4);
    LocalPartEnds(s, 2);
  }

  /** `userSignUpValidation`: `sub` present, a non-empty name, an email both
      email checks accept and, when a photo is sent, a photo matching the
      link pattern. */
  method CheckSignup(sub: Option<string>, name: Option<string>, email: Option<string>, photo: Option<string>)
    returns (r: Outcome)
    ensures r.Fail? ==> r.kind == BadRequest
    ensures r == Pass <==>
              && sub.Some? && Truthy(name) && email.Some? && IsSignupEmail(email.value)
              && (photo.None? || IsLink(photo.value))
  {
    if sub.None? || !Truthy(name) || email.None? {
      return Fail(BadRequest);
    }
    var e := email.value;
    var ok := MatchEmail(e);
    if !ok {
      return Fail(BadRequest);
    }
    var i := 0;
    while i < |e| && IsLocalChar(e[i])
      invariant 0 <= i <= |e|
      invariant forall k :: 0 <= k < i ==> IsLocalChar(e[k])
    {
      i := i + 1;
    }
    LocalPartEnds(e, i);
    var b :| EmailSplit(e, i, b);
    if e[0] == '.' || e[i - 1] == '.' || e[i + 1] == '-' {
      return Fail(BadRequest);
    }
    var k := 0;
    while k < i - 1
      invariant 0 <= k <= i - 1
      invariant forall m :: 0 <= m < k ==> !(e[m] == '.' && e[m + 1] == '.')
    {
      if e[k] == '.' && e[k + 1] == '.' {
        return Fail(BadRequest);
      }
      k := k + 1;
    }
    assert ZodEmailExtra(e, i);
    if photo.Some? {
      var linkOk := MatchLink(photo.value);
      if !linkOk {
        return Fail(BadRequest);
      }
    }
    return Pass;
  }

  /** The validator lets an empty `sub` through; the schema's `required`
      then refuses it, so such a sign-up fails unless the account exists. */
  lemma EmptySubFailsSignup(s: Store, p: SignupInput)
    requires p.sub == ""
    requires !HasVisibleUserWithEmail(s, p.email)
    ensures CreateUser(s, p) == Err(ServiceUnavailable)
  {
  }

  // ---------------------------------------------------------------------------
  // Profile update

  /** The set of link URLs of a list. */
  function LinkUrls(links: seq<SocialLink>): (r: set<string>)
    ensures forall i :: 0 <= i < |links| ==> links[i].link in r
    ensures forall u :: u in r ==> exists i :: 0 <= i < |links| && links[i].link == u
  {
    if links == [] then {}
    else
      var rest := LinkUrls(links[1..]);
      assert forall i :: 1 <= i < |links| ==> links[i] == links[1..][i - 1];
      {links[0].link} + rest
  }

  predicate DistinctUrls(links: seq<SocialLink>) {
    forall i, j :: 0 <= i < j < |links| ==> links[i].link != links[j].link
  }

  lemma {:induction false} LinkUrlsBound(links: seq<SocialLink>)
    ensures |LinkUrls(links)| <= |links|
  {
    if links != [] {
      LinkUrlsBound(links[1..]);
    }
  }

  lemma {:induction false} DistinctUrlsFillSet(links: seq<SocialLink>)
    requires DistinctUrls(links)
    ensures |LinkUrls(links)| == |links|
  {
    if links != [] {
      var tail := links[1..];
      assert DistinctUrls(tail) by {
        forall i, j | 0 <= i < j < |tail|
          ensures tail[i].link != tail[j].link
        {
          assert tail[i] == links[i + 1] && tail[j] == links[j + 1];
        }
      }
      DistinctUrlsFillSet(tail);
      assert links[0].link !in LinkUrls(tail) by {
        forall j | 0 <= j < |tail|
          ensures tail[j].link != links[0].link
        {
          assert tail[j] == links[j + 1];
        }
      }
    }
  }

  lemma {:induction false} RepeatedUrlShrinksSet(links: seq<SocialLink>, i: int, j: int)
    requires 0 <= i < j < |links| && links[i].link == links[j].link
    ensures |LinkUrls(links)| < |links|
  {
    var tail := links[1..];
    LinkUrlsBound(tail);
    if i == 0 {
      assert links[j] == tail[j - 1];
      assert LinkUrls(links) == LinkUrls(tail);
    } else {
      assert links[i] == tail[i - 1] && links[j] == tail[j - 1];
      RepeatedUrlShrinksSet(tail, i - 1, j - 1);
    }
  }

  /** `new Set(links.map(l => l.link)).size === links.length` holds exactly
      when the URLs are pairwise distinct. */
  lemma UniqueUrlsIffSetSize(links: seq<SocialLink>)
    ensures |LinkUrls(links)| == |links| <==> DistinctUrls(links)
  {
    if DistinctUrls(links) {
      DistinctUrlsFillSet(links);
    } else {
      var i, j :| 0 <= i < j < |links| && links[i].link == links[j].link;
      RepeatedUrlShrinksSet(links, i, j);
    }
  }

  /** The rules for the links of a profile update. */
  predicate ProfileUpdateLinksOk(links: seq<SocialLink>) {
    && |links| <= 5
    && ProfileLinksValid(links)
    && |LinkUrls(links)| == |links|
  }

  /** `userProfileUpdateValidation`: `data` must be present (the body's only
      known key); a present name is non-empty; present links obey the rules. */
  function CheckProfileUpdate(data: Option<ProfileInput>): (r: Outcome)
    ensures r.Fail? ==> r.kind == BadRequest
    ensures data.None? ==> r.Fail?
    ensures r == Pass <==>
              && data.Some?
              && (data.value.name.None? || data.value.name.value != "")
              && (data.value.links.Some? ==>
                    && |data.value.links.value| <= 5
                    && ProfileLinksValid(data.value.links.value)
                    && DistinctUrls(data.value.links.value))
  {
    if data.None? then Fail(BadRequest)
    else if data.value.name.Some? && data.value.name.value == "" then Fail(BadRequest)
    else if data.value.links.Some? && !ProfileUpdateLinksOk(data.value.links.value) then
      UniqueUrlsIffSetSize(data.value.links.value);
      Fail(BadRequest)
    else
      assert data.value.links.Some? ==> DistinctUrls(data.value.links.value) by {
        if data.value.links.Some? {
          UniqueUrlsIffSetSize(data.value.links.value);
        }
      }
      Pass
  }

  /** Behind the validator, staging a profile change never fails with a 500:
      the payload is present and the staged links pass the schema. */
  lemma ValidProfileBodyNeverInternalError(s: Store, userId: Option<Id>, data: Option<ProfileInput>,
                                           upload: Option<string>, now: Time)
    requires CheckProfileUpdate(data) == Pass
    ensures UpdateProfile(s, userId, data, upload, now) != Err(InternalError)
  {
  }
}
