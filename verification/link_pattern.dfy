/**
  The `linksRegex` pattern `^https?:\/\/[^\s$.?#].[^\s]*$` that game social
  links, user profile links and staged profile links must match. The pattern
  has no `u` flag, so JavaScript matches it against the UTF-16 code units of
  the text: a character outside the Basic Multilingual Plane is two units (a
  surrogate pair), and `.` or `[^\s$.?#]` can take one half of it. The
  pattern is given as a predicate over those units and as a left-to-right
  scanner over the characters, proved equal to it.
 */
module LinkPattern {
  import opened Common

  /** The code units JavaScript's `.` does not match (without the `s` flag). */
  predicate IsLineTerminator(n: int) {
    n == 0x0A || n == 0x0D || n == 0x2028 || n == 0x2029
  }

  /** `[^\s$.?#]`: the first code unit of the host part. */
  predicate IsHostStart(n: int) {
    !IsWhiteSpace(n) && n != '$' as int && n != '.' as int && n != '?' as int && n != '#' as int
  }

  /** A character outside the Basic Multilingual Plane, written as a surrogate pair. */
  predicate IsAstral(c: char) {
    c as int >= 0x1_0000
  }

  /** The UTF-16 code units of one character. */
  function CharUnits(c: char): (r: seq<int>)
    ensures |r| == (if IsAstral(c) then 2 else 1)
    ensures !IsAstral(c) ==> r == [c as int]
    ensures IsAstral(c) ==> 0xD800 <= r[0] < 0xDC00 && 0xDC00 <= r[1] < 0xE000
  {
    var n := c as int;
    if n < 0x1_0000 then [n]
    else [0xD800 + (n - 0x1_0000) / 0x400, 0xDC00 + (n - 0x1_0000) % 0x400]
  }

  /** The UTF-16 code units of a text, as JavaScript stores it. */
  function Units(s: string): (r: seq<int>)
    ensures |r| >= |s|
  {
    if s == [] then [] else CharUnits(s[0]) + Units(s[1..])
  }

  predicate HasPrefix(s: string, p: string) {
    |p| <= |s| && s[..|p|] == p
  }

  /** The text after the scheme, when `s` starts with `http://` or `https://`. */
  function AfterScheme(s: string): (r: Option<string>)
    ensures r.Some? <==> HasPrefix(s, "http://") || HasPrefix(s, "https://")
    ensures r.Some? ==> |r.value| + 7 <= |s| && r.value == s[|s| - |r.value|..]
  {
    if HasPrefix(s, "http://") then Some(s[7..])
    else if HasPrefix(s, "https://") then Some(s[8..])
    else None
  }

  /** The part after the scheme, unit by unit: one host-start unit, one
      unit `.` accepts, then only non-space units up to the end. */
  predicate IsLinkTail(t: string) {
    var u := Units(t);
    && |u| >= 2
    && IsHostStart(u[0])
    && !IsLineTerminator(u[1])
    && forall i :: 2 <= i < |u| ==> !IsWhiteSpace(u[i])
  }

  /** `linksRegex.test(s)`. The scheme is ASCII, one unit per character. */
  predicate IsLink(s: string) {
    var tail := AfterScheme(s);
    tail.Some? && IsLinkTail(tail.value)
  }

  predicate AllLinksValid(links: seq<SocialLink>) {
    forall i :: 0 <= i < |links| ==> IsLink(links[i].link)
  }

  /** No character of `s` is a space. */
  predicate SpaceFree(s: string) {
    forall i :: 0 <= i < |s| ==> !IsWhiteSpace(s[i] as int)
  }

  /** A surrogate is neither a space nor a line terminator, so no unit of a
      space-free text is a space. */
  lemma {:induction false} SpaceFreeUnits(s: string)
    ensures SpaceFree(s) <==> forall i :: 0 <= i < |Units(s)| ==> !IsWhiteSpace(Units(s)[i])
  {
    if s != [] {
      SpaceFreeUnits(s[1..]);
      var u := Units(s);
      var h := CharUnits(s[0]);
      assert u == h + Units(s[1..]);
      if SpaceFree(s) {
        assert forall i :: 0 <= i < |u| ==> !IsWhiteSpace(u[i]) by {
          forall i | 0 <= i < |u|
            ensures !IsWhiteSpace(u[i])
          {
            if i >= |h| {
              assert u[i] == Units(s[1..])[i - |h|];
              assert SpaceFree(s[1..]) by {
                forall k | 0 <= k < |s[1..]| ensures !IsWhiteSpace(s[1..][k] as int) {
                  assert s[1..][k] == s[k + 1];
                }
              }
            }
          }
        }
      }
      if forall i :: 0 <= i < |u| ==> !IsWhiteSpace(u[i]) {
        assert !IsWhiteSpace(s[0] as int) by {
          if !IsAstral(s[0]) { assert u[0] == s[0] as int; }
        }
        assert forall i :: 0 <= i < |Units(s[1..])| ==> !IsWhiteSpace(Units(s[1..])[i]) by {
          forall i | 0 <= i < |Units(s[1..])| ensures !IsWhiteSpace(Units(s[1..])[i]) {
            assert Units(s[1..])[i] == u[i + |h|];
          }
        }
        forall k | 0 <= k < |s| ensures !IsWhiteSpace(s[k] as int) {
          if k > 0 { assert s[k] == s[1..][k - 1]; }
        }
      }
    }
  }

  /** The link tail, stated over characters: an astral first character
      supplies both the host-start unit and the `.` unit by itself. */
  predicate IsLinkTailChars(t: string) {
    && |t| >= 1
    && IsHostStart(t[0] as int)
    && if IsAstral(t[0]) then SpaceFree(t[1..])
       else |t| >= 2 && !IsLineTerminator(t[1] as int) && SpaceFree(t[2..])
  }

  lemma LinkTailChars(t: string)
    ensures IsLinkTail(t) <==> IsLinkTailChars(t)
  {
    if t != [] {
      if IsAstral(t[0]) {
        AstralLinkTail(t);
      } else if |t| >= 2 {
        BmpLinkTail(t);
      } else {
        assert Units(t) == CharUnits(t[0]) + Units(t[1..]);
        assert t[1..] == [];
      }
    }
  }

  /** `LinkTailChars` when the first character is a surrogate pair. */
  lemma AstralLinkTail(t: string)
    requires t != [] && IsAstral(t[0])
    ensures IsLinkTail(t) <==> IsLinkTailChars(t)
  {
    var u := Units(t);
    assert u == CharUnits(t[0]) + Units(t[1..]);
    SpaceFreeUnits(t[1..]);
    assert u[2..] == Units(t[1..]);
    if forall i :: 2 <= i < |u| ==> !IsWhiteSpace(u[i]) {
      forall i | 0 <= i < |Units(t[1..])| ensures !IsWhiteSpace(Units(t[1..])[i]) {
        assert Units(t[1..])[i] == u[i + 2];
      }
    }
  }

  /** `LinkTailChars` when the first character is a single code unit. */
  lemma BmpLinkTail(t: string)
    requires |t| >= 2 && !IsAstral(t[0])
    ensures IsLinkTail(t) <==> IsLinkTailChars(t)
  {
    var u := Units(t);
    var t1 := t[1..];
    var w := CharUnits(t[1]);
    assert u == [t[0] as int] + Units(t1);
    assert Units(t1) == CharUnits(t1[0]) + Units(t1[1..]);
    assert t1[1..] == t[2..];
    assert u == [t[0] as int] + w + Units(t[2..]);
    assert u[1] == w[0];
    SpaceFreeUnits(t[2..]);
    if forall i :: 2 <= i < |u| ==> !IsWhiteSpace(u[i]) {
      forall i | 0 <= i < |Units(t[2..])| ensures !IsWhiteSpace(Units(t[2..])[i]) {
        assert Units(t[2..])[i] == u[i + 1 + |w|];
      }
    }
    if SpaceFree(t[2..]) {
      forall i | 2 <= i < |u| ensures !IsWhiteSpace(u[i]) {
        if i < 1 + |w| { assert IsAstral(t[1]) && u[i] == w[1]; }
        else { assert u[i] == Units(t[2..])[i - 1 - |w|]; }
      }
    }
  }

  /** A scanner that walks the text once, a character at a time. */
  method MatchLink(s: string) returns (ok: bool)
    ensures ok <==> IsLink(s)
  {
    var start: nat;
    if HasPrefix(s, "http://") {
      start := 7;
    } else if HasPrefix(s, "https://") {
      start := 8;
    } else {
      return false;
    }
    var t := s[start..];
    assert AfterScheme(s) == Some(t);
    LinkTailChars(t);
    if |t| < 1 || !IsHostStart(t[0] as int) {
      return false;
    }
    var i := 1;
    if !IsAstral(t[0]) {
      if |t| < 2 || IsLineTerminator(t[1] as int) {
        return false;
      }
      i := 2;
    }
    var from := i;
    while i < |t|
      invariant from <= i <= |t|
      invariant forall k :: from <= k < i ==> !IsWhiteSpace(t[k] as int)
    {
      if IsWhiteSpace(t[i] as int) {
        assert t[from..][i - from] == t[i];
        return false;
      }
      i := i + 1;
    }
    assert SpaceFree(t[from..]) by {
      forall k | 0 <= k < |t[from..]| ensures !IsWhiteSpace(t[from..][k] as int) {
        assert t[from..][k] == t[k + from];
      }
    }
    return true;
  }

  /** A link made of a scheme, a host-start character and space-free text is accepted. */
  lemma WellFormedLinkAccepted(host: char, rest: string)
    requires IsHostStart(host as int)
    requires SpaceFree(rest)
    requires |rest| >= 1
    ensures IsLink("https://" + [host] + rest)
    ensures IsLink("http://" + [host] + rest)
  {
    var t := [host] + rest;
    assert t[1..] == rest;
    assert t[2..] == rest[1..];
    assert SpaceFree(rest[1..]) by {
      forall k | 0 <= k < |rest[1..]| ensures !IsWhiteSpace(rest[1..][k] as int) {
        assert rest[1..][k] == rest[k + 1];
      }
    }
    assert !IsLineTerminator(t[1] as int) by {
      assert t[1] == rest[0];
    }
    LinkTailChars(t);
    AfterSchemeOf(t);
    assert "https://" + [host] + rest == "https://" + t;
    assert "http://" + [host] + rest == "http://" + t;
  }

  /** Either scheme followed by any text leaves exactly that text. */
  lemma AfterSchemeOf(t: string)
    ensures AfterScheme("https://" + t) == Some(t)
    ensures AfterScheme("http://" + t) == Some(t)
  {
    var s := "https://" + t;
    assert s[..8] == "https://";
    assert !HasPrefix(s, "http://") by { assert s[4] == 's'; }
    assert s[8..] == t;
    var s' := "http://" + t;
    assert s'[..7] == "http://";
    assert s'[7..] == t;
  }

  /** A character outside the Basic Multilingual Plane after the scheme is
      a complete host on its own: `https://` and one emoji is a link. */
  lemma AstralHostAccepted(c: char)
    requires IsAstral(c)
    ensures IsLink("https://" + [c])
  {
    AfterSchemeOf([c]);
    assert [c][1..] == [];
    LinkTailChars([c]);
  }

  /** A link with a space anywhere after the second code unit of the host
      is refused; in character terms, after the host's first character
      when it is astral and after its second otherwise. */
  lemma LinkWithSpaceRejected(s: string, i: nat)
    requires IsLink(s)
    requires var t := AfterScheme(s).value;
             |s| - |t| + (if IsAstral(t[0]) then 1 else 2) <= i < |s|
    ensures !IsWhiteSpace(s[i] as int)
  {
    var t := AfterScheme(s).value;
    var off := |s| - |t|;
    LinkTailChars(t);
    var from := if IsAstral(t[0]) then 1 else 2;
    assert s[i] == t[i - off] == t[from..][i - off - from];
  }
}
