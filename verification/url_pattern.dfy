/**
  The `urlPattern` expression `^(https?:\/\/)?([\da-z.-]+)\.([a-z.]{2,6})([/\w .-]*)*\/?$`
  that the link of every game social link must match. Each of its character
  classes holds only ASCII characters, so whether the text is read as
  characters or as UTF-16 code units makes no difference: a character
  outside ASCII is in no class and refuses the text either way. The final
  `\/?` adds nothing, because `/` is already in the path class. The pattern
  is given by its structure (an optional scheme, then host, `.`, domain and
  path), and as a scanner proved equal to it.
 */
module UrlPattern {
  import opened Common
  import opened LinkPattern

  /** `[\da-z.-]`: a character of the host group (lower case only). */
  predicate IsHostChar(c: char) {
    ('0' <= c <= '9') || ('a' <= c <= 'z') || c == '.' || c == '-'
  }

  /** `[a-z.]`: a character of the domain group. */
  predicate IsDomainChar(c: char) {
    ('a' <= c <= 'z') || c == '.'
  }

  /** `[/\w .-]`: a character of the path group. */
  predicate IsPathChar(c: char) {
    ('A' <= c <= 'Z') || ('a' <= c <= 'z') || ('0' <= c <= '9')
    || c == '_' || c == '/' || c == ' ' || c == '.' || c == '-'
  }

  predicate AllHost(s: string) {
    forall k :: 0 <= k < |s| ==> IsHostChar(s[k])
  }

  predicate AllDomain(s: string) {
    forall k :: 0 <= k < |s| ==> IsDomainChar(s[k])
  }

  predicate AllPath(s: string) {
    forall k :: 0 <= k < |s| ==> IsPathChar(s[k])
  }

  /** `t` read as the host `t[..i]` (at least one character), the `.` at
      `i`, the domain `t[i + 1..j]` (two to six characters) and the path
      `t[j..]`. */
  predicate SplitAt(t: string, i: int, j: int) {
    && 1 <= i && i + 3 <= j <= i + 7 && j <= |t|
    && t[i] == '.'
    && AllHost(t[..i]) && AllDomain(t[i + 1..j]) && AllPath(t[j..])
  }

  /** The text after the optional scheme matches the rest of the pattern:
      some choice of the dot and the domain's end reads it. */
  predicate IsUrlTail(t: string) {
    exists i, j | 0 <= i <= |t| && 0 <= j <= |t| :: SplitAt(t, i, j)
  }

  /** `urlPattern.test(s)`: the scheme group is optional, so the whole text,
      or the text after `http://` or after `https://`, must be a tail. */
  predicate IsUrl(s: string) {
    || IsUrlTail(s)
    || (HasPrefix(s, "http://") && IsUrlTail(s[7..]))
    || (HasPrefix(s, "https://") && IsUrlTail(s[8..]))
  }

  predicate AllUrls(links: seq<SocialLink>) {
    forall k :: 0 <= k < |links| ==> IsUrl(links[k].link)
  }

  /** A split whose domain has exactly two characters. */
  predicate ShortSplit(t: string, i: int) {
    SplitAt(t, i, i + 3)
  }

  /** Each class of the host and domain groups lies inside the path class,
      so a matching tail is made of path characters only. */
  lemma TailIsPathChars(t: string)
    requires IsUrlTail(t)
    ensures AllPath(t)
  {
    var i, j :| 0 <= i <= |t| && 0 <= j <= |t| && SplitAt(t, i, j);
    var host, domain, path := t[..i], t[i + 1..j], t[j..];
    forall k | 0 <= k < |t| ensures IsPathChar(t[k]) {
      if k < i {
        assert host[k] == t[k];
      } else if k == i {
      } else if k < j {
        assert domain[k - i - 1] == t[k];
      } else {
        assert path[k - j] == t[k];
      }
    }
  }

  /** A character outside the path class refuses the tail: it fits none of
      the host, the dot, the domain and the path. */
  lemma NotPathCharRefused(t: string, k: int)
    requires 0 <= k < |t| && !IsPathChar(t[k])
    ensures !IsUrlTail(t)
  {
    forall i, j | 0 <= i <= |t| && 0 <= j <= |t| ensures !SplitAt(t, i, j) {
      if 1 <= i && i + 3 <= j {
        var host, domain, path := t[..i], t[i + 1..j], t[j..];
        if k < i {
          assert host[k] == t[k];
        } else if k < j && k > i {
          assert domain[k - i - 1] == t[k];
        } else if k >= j {
          assert path[k - j] == t[k];
        }
      }
    }
  }

  /** A tail must start with a host character. */
  lemma NotHostStartRefused(t: string)
    requires t != [] && !IsHostChar(t[0])
    ensures !IsUrlTail(t)
  {
    forall i, j | 0 <= i <= |t| && 0 <= j <= |t| ensures !SplitAt(t, i, j) {
      if 1 <= i {
        var host := t[..i];
        assert host[0] == t[0];
      }
    }
  }

  /** A domain of two characters is enough: any longer domain can hand its
      extra characters to the path. */
  lemma ShortDomainSuffices(t: string, i: int, j: int)
    ensures SplitAt(t, i, j) ==> ShortSplit(t, i)
  {
    if SplitAt(t, i, j) {
      var domain, short := t[i + 1..j], t[i + 1..i + 3];
      forall k | 0 <= k < 2 ensures IsDomainChar(short[k]) {
        assert short[k] == domain[k];
      }
      var path, rest := t[j..], t[i + 3..];
      forall k | 0 <= k < |rest| ensures IsPathChar(rest[k]) {
        if i + 3 + k < j {
          assert rest[k] == domain[k + 2];
        } else {
          assert rest[k] == path[i + 3 + k - j];
        }
      }
    }
  }

  /** A tail without a split whose domain has two characters is refused. */
  lemma NoShortSplitRefused(t: string)
    requires forall m :: 1 <= m < |t| ==> !ShortSplit(t, m)
    ensures !IsUrlTail(t)
  {
    forall i, j | 0 <= i <= |t| && 0 <= j <= |t| ensures !SplitAt(t, i, j) {
      ShortDomainSuffices(t, i, j);
    }
  }

  /** In a text of path characters, a split with a two-character domain
      needs only a host, the dot and two domain characters. */
  lemma ShortSplitOfPathText(t: string, i: int)
    requires AllPath(t)
    requires 1 <= i && i + 3 <= |t|
    ensures ShortSplit(t, i) <==>
              t[i] == '.' && AllHost(t[..i]) && IsDomainChar(t[i + 1]) && IsDomainChar(t[i + 2])
  {
    var short, rest := t[i + 1..i + 3], t[i + 3..];
    assert short == [t[i + 1], t[i + 2]];
    forall k | 0 <= k < |rest| ensures IsPathChar(rest[k]) {
      assert rest[k] == t[i + 3 + k];
    }
  }

  /** Once a character outside the host class is met, no dot at or after
      it can end the host. */
  lemma NoLaterSplit(t: string, i: int)
    requires 0 <= i < |t| && !IsHostChar(t[i])
    ensures forall m :: i <= m ==> !ShortSplit(t, m)
  {
    forall m | i <= m ensures !ShortSplit(t, m) {
      if i < m <= |t| {
        var host := t[..m];
        assert host[i] == t[i];
      }
    }
  }

  /** One pass to check the characters, then one pass for the first dot
      after a host that has two domain characters behind it. */
  method MatchUrlTail(t: string) returns (ok: bool)
    ensures ok <==> IsUrlTail(t)
  {
    var k := 0;
    while k < |t|
      invariant 0 <= k <= |t|
      invariant forall m :: 0 <= m < k ==> IsPathChar(t[m])
    {
      if !IsPathChar(t[k]) {
        NotPathCharRefused(t, k);
        return false;
      }
      k := k + 1;
    }
    if |t| == 0 {
      return false;
    }
    if !IsHostChar(t[0]) {
      NotHostStartRefused(t);
      return false;
    }
    var i := 1;
    assert t[..1] == [t[0]];
    while i + 3 <= |t|
      invariant 1 <= i <= |t|
      invariant AllHost(t[..i])
      invariant forall m :: 1 <= m < i ==> !ShortSplit(t, m)
    {
      ShortSplitOfPathText(t, i);
      if t[i] == '.' && IsDomainChar(t[i + 1]) && IsDomainChar(t[i + 2]) {
        assert SplitAt(t, i, i + 3);
        return true;
      }
      if !IsHostChar(t[i]) {
        NoLaterSplit(t, i);
        NoShortSplitRefused(t);
        return false;
      }
      assert t[..i + 1] == t[..i] + [t[i]];
      i := i + 1;
    }
    NoShortSplitRefused(t);
    return false;
  }

  /** `urlPattern.test(s)`, trying the scheme-less reading first. */
  method MatchUrl(s: string) returns (ok: bool)
    ensures ok <==> IsUrl(s)
  {
    ok := MatchUrlTail(s);
    if !ok && HasPrefix(s, "http://") {
      ok := MatchUrlTail(s[7..]);
    }
    if !ok && HasPrefix(s, "https://") {
      ok := MatchUrlTail(s[8..]);
    }
  }

  /** A tail behind either scheme, or on its own, is a matching link. */
  lemma TailWithAnyScheme(t: string)
    requires IsUrlTail(t)
    ensures IsUrl(t) && IsUrl("https://" + t) && IsUrl("http://" + t)
  {
    AfterSchemeOf(t);
  }

  /** The pattern has no `i` flag, so a host starting with an upper-case
      letter, as in `https://Example.com`, does not match with any scheme. */
  lemma UpperCaseHostRefused(t: string)
    requires t != [] && 'A' <= t[0] <= 'Z'
    ensures !IsUrl(t) && !IsUrl("https://" + t) && !IsUrl("http://" + t)
  {
    NotHostStartRefused(t);
    var s, s' := "https://" + t, "http://" + t;
    AfterSchemeOf(t);
    assert !HasPrefix(s, "http://") by { assert s[4] == 's'; }
    assert !HasPrefix(s', "https://") by { assert s'[4] == ':'; }
    NotPathCharRefused(s, 5);
    NotPathCharRefused(s', 4);
  }

  /** A text without any `.` is refused. */
  lemma NoDotRefused(t: string)
    requires forall k :: 0 <= k < |t| ==> t[k] != '.'
    ensures !IsUrlTail(t)
  {
  }

  /** A lower-case host, a dot, a two-character domain and any path text
      make a matching tail. */
  lemma WellFormedTailAccepted(host: string, d1: char, d2: char, path: string)
    requires host != [] && AllHost(host)
    requires IsDomainChar(d1) && IsDomainChar(d2) && AllPath(path)
    ensures IsUrlTail(host + ['.', d1, d2] + path)
  {
    var t := host + ['.', d1, d2] + path;
    var i := |host|;
    assert t[..i] == host;
    assert t[i + 1..i + 3] == [d1, d2];
    assert t[i + 3..] == path;
    assert SplitAt(t, i, i + 3);
  }
}
