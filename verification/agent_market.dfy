/** `remove_all_urls` and `get_solver_command` of the agent-market helpers.

    The substitution `re.sub(r"https?:\/\/[^\s]+", "", text)` is written as a
    scanner: at each position it tries the pattern (with the optional "s"
    first, as the regex engine does), deletes the match if there is one and
    resumes after it, and otherwise keeps the character and moves on. */
module AgentMarket {
  import opened Wrappers
  import opened Strings

  const RepositoryLabel := "Repository URL:"
  const IssueLabel := "Issue URL:"

  /** Length of the maximal run of non-whitespace characters `s` starts with. */
  function RunLen(s: string): (n: nat)
    ensures n <= |s|
    ensures NoSpace(s[..n])
    ensures n == |s| || IsSpace(s[n])
  {
    if |s| == 0 || IsSpace(s[0]) then 0
    else
      var m := RunLen(s[1..]);
      assert s[..m + 1] == [s[0]] + s[1..][..m];
      m + 1
  }

  /** The pattern `https?://[^\s]+` matches at the start of `s`. */
  predicate UrlAtStart(s: string) {
    || (IsPrefix("https://", s) && |s| > 8 && !IsSpace(s[8]))
    || (IsPrefix("http://", s) && |s| > 7 && !IsSpace(s[7]))
  }

  /** Length of the match of `https?://[^\s]+` at the start of `s`: the
      scheme, then the maximal non-whitespace run after it. */
  function UrlMatch(s: string): (r: Option<nat>)
    ensures r.Some? <==> UrlAtStart(s)
    ensures r.Some? ==> 8 <= r.value <= |s|
    ensures r.Some? ==> NoSpace(s[..r.value])
    ensures r.Some? ==> r.value == |s| || IsSpace(s[r.value])
  {
    if IsPrefix("https://", s) && |s| > 8 && !IsSpace(s[8]) then
      var n := RunLen(s[8..]);
      assert s[..8 + n] == s[..8] + s[8..][..n];
      Some(8 + n)
    else if IsPrefix("http://", s) && |s| > 7 && !IsSpace(s[7]) then
      var n := RunLen(s[7..]);
      assert s[..7 + n] == s[..7] + s[7..][..n];
      Some(7 + n)
    else None
  }

  /** `re.sub(r"https?:\/\/[^\s]+", "", s)`. */
  function RemoveUrls(s: string): (r: string)
    ensures |r| <= |s|
    decreases |s|
  {
    if |s| == 0 then ""
    else match UrlMatch(s)
      case Some(n) => RemoveUrls(s[n..])
      case None => [s[0]] + RemoveUrls(s[1..])
  }

  /** `remove_all_urls`: drop every "Repository URL:", then every
      "Issue URL:", then every http(s) URL. */
  function RemoveAllUrls(text: string): (r: string)
    ensures |r| <= |text|
  {
    var t1 := ReplaceAll(text, RepositoryLabel, "");
    var t2 := ReplaceAll(t1, IssueLabel, "");
    RemoveUrls(t2)
  }

  /** `get_solver_command`: the background, with or without PR comments. */
  function GetSolverCommand(background: string, prComments: Option<string>): (r: string)
    ensures r == background
  {
    if !Truthy(prComments) then background else background
  }

  // ---------------------------------------------------------------------
  // Text without a URL scheme is left alone
  // ---------------------------------------------------------------------

  /** A text without "http://" and "https://" has no URL at its start. */
  lemma NoSchemeNoUrl(s: string)
    requires !Contains(s, "http://") && !Contains(s, "https://")
    ensures !UrlAtStart(s)
  {
    if IsPrefix("https://", s) {
      assert OccursAt(s, "https://", 0);
    }
    if IsPrefix("http://", s) {
      assert OccursAt(s, "http://", 0);
    }
  }

  lemma NotContainsTail(s: string, pat: string)
    requires |s| > 0 && !Contains(s, pat)
    ensures !Contains(s[1..], pat)
  {
    if Contains(s[1..], pat) {
      var i :| 0 <= i <= |s[1..]| - |pat| && OccursAt(s[1..], pat, i);
      OccursShift(s, pat, i);
    }
  }

  lemma {:induction false} RemoveUrlsUnchanged(s: string)
    requires !Contains(s, "http://") && !Contains(s, "https://")
    ensures RemoveUrls(s) == s
    decreases |s|
  {
    if |s| > 0 {
      NoSchemeNoUrl(s);
      NotContainsTail(s, "http://");
      NotContainsTail(s, "https://");
      RemoveUrlsUnchanged(s[1..]);
      assert s == [s[0]] + s[1..];
    }
  }

  /** A text with neither label and no URL scheme comes back unchanged. */
  lemma RemoveAllUrlsUnchanged(text: string)
    requires !Contains(text, RepositoryLabel) && !Contains(text, IssueLabel)
    requires !Contains(text, "http://") && !Contains(text, "https://")
    ensures RemoveAllUrls(text) == text
  {
    RemoveUrlsUnchanged(text);
  }

  // ---------------------------------------------------------------------
  // No URL survives
  // ---------------------------------------------------------------------

  /** A whitespace character is never the start of a URL, so it is kept. */
  lemma RemoveUrlsKeepsSpace(s: string)
    requires |s| > 0 && IsSpace(s[0])
    ensures RemoveUrls(s) == [s[0]] + RemoveUrls(s[1..])
  {
    assert UrlMatch(s).None?;
  }

  /** Up to its first whitespace character, the output is the input: every
      deletion is followed by whitespace or the end of the text. */
  lemma {:induction false} RemoveUrlsWordPrefix(s: string, j: nat)
    requires j <= |RemoveUrls(s)| && NoSpace(RemoveUrls(s)[..j])
    ensures j <= |s| && s[..j] == RemoveUrls(s)[..j]
    decreases |s|
  {
    var r := RemoveUrls(s);
    if j > 0 {
      RemoveUrlsAfterMatch(s);
      assert !IsSpace(r[..j][0]);
      assert UrlMatch(s).None?;
      var tail := RemoveUrls(s[1..]);
      assert r == [s[0]] + tail;
      assert r[..j][1..] == tail[..j - 1];
      RemoveUrlsWordPrefix(s[1..], j - 1);
      assert s[..j] == [s[0]] + s[1..][..j - 1];
    }
  }

  /** After a deletion the output starts with whitespace, if anything. */
  lemma RemoveUrlsAfterMatch(s: string)
    ensures UrlMatch(s).Some? ==> |RemoveUrls(s)| == 0 || IsSpace(RemoveUrls(s)[0])
  {
    if UrlMatch(s).Some? && |s[UrlMatch(s).value..]| > 0 {
      RemoveUrlsKeepsSpace(s[UrlMatch(s).value..]);
    }
  }

  /** Whether a URL starts at `s`'s head is decided by its first nine
      characters, all non-whitespace. */
  lemma UrlAtStartWord(r: string, s: string)
    requires UrlAtStart(r)
    ensures var k := if IsPrefix("https://", r) && |r| > 8 && !IsSpace(r[8]) then 9 else 8;
      k <= |r| && NoSpace(r[..k])
      && (|s| >= k && s[..k] == r[..k] ==> UrlAtStart(s))
  {
    var k := if IsPrefix("https://", r) && |r| > 8 && !IsSpace(r[8]) then 9 else 8;
    if k == 9 {
      assert r[..9] == "https://" + [r[8]];
    } else {
      assert r[..8] == "http://" + [r[7]];
    }
    if |s| >= k && s[..k] == r[..k] {
      assert s[..k - 1] == r[..k - 1];
    }
  }

  /** No URL starts anywhere in the output of `RemoveUrls`. */
  lemma {:induction false} RemoveUrlsNoUrl(s: string, i: nat)
    requires i <= |RemoveUrls(s)|
    ensures !UrlAtStart(RemoveUrls(s)[i..])
    decreases |s|
  {
    var r := RemoveUrls(s);
    if |s| > 0 {
      match UrlMatch(s)
      case Some(n) =>
        RemoveUrlsNoUrl(s[n..], i);
      case None =>
        if i > 0 {
          var tail := RemoveUrls(s[1..]);
          assert r == [s[0]] + tail;
          assert r[i..] == tail[i - 1..];
          RemoveUrlsNoUrl(s[1..], i - 1);
        } else {
          RemoveUrlsNoUrlHead(s);
          assert r[i..] == r;
        }
    }
  }

  /** When no URL starts at the head of `s`, none starts at the head of the
      output either. */
  lemma RemoveUrlsNoUrlHead(s: string)
    requires |s| > 0 && UrlMatch(s).None?
    ensures !UrlAtStart(RemoveUrls(s))
  {
    var r := RemoveUrls(s);
    if UrlAtStart(r) {
      UrlAtStartWord(r, s);
      var k := if IsPrefix("https://", r) && |r| > 8 && !IsSpace(r[8]) then 9 else 8;
      assert r[..k] == r[..k][..k];
      RemoveUrlsWordPrefix(s, k);
      assert false;
    }
  }

  /** Removing URLs twice removes nothing more. */
  lemma RemoveUrlsIdempotent(s: string)
    ensures RemoveUrls(RemoveUrls(s)) == RemoveUrls(s)
  {
    var r := RemoveUrls(s);
    forall i | 0 <= i <= |r| ensures !UrlAtStart(r[i..]) {
      RemoveUrlsNoUrl(s, i);
    }
    NoUrlFixed(r);
  }

  /** A text in which no URL starts anywhere is left unchanged. */
  lemma {:induction false} NoUrlFixed(t: string)
    requires forall i :: 0 <= i <= |t| ==> !UrlAtStart(t[i..])
    ensures RemoveUrls(t) == t
    decreases |t|
  {
    if |t| > 0 {
      assert !UrlAtStart(t[0..]);
      assert t[0..] == t;
      forall i | 0 <= i <= |t[1..]| ensures !UrlAtStart(t[1..][i..]) {
        assert t[1..][i..] == t[i + 1..];
      }
      NoUrlFixed(t[1..]);
      assert t == [t[0]] + t[1..];
    }
  }

  /** In the output of `remove_all_urls`, every "http://" or "https://" is
      followed by whitespace or the end of the text. */
  lemma RemoveAllUrlsNoUrl(text: string, i: nat)
    requires i <= |RemoveAllUrls(text)|
    ensures var r := RemoveAllUrls(text);
      && (OccursAt(r, "https://", i) ==> i + 8 == |r| || IsSpace(r[i + 8]))
      && (OccursAt(r, "http://", i) ==> i + 7 == |r| || IsSpace(r[i + 7]))
  {
    var r := RemoveAllUrls(text);
    var t2 := ReplaceAll(ReplaceAll(text, RepositoryLabel, ""), IssueLabel, "");
    RemoveUrlsNoUrl(t2, i);
    assert !UrlAtStart(r[i..]);
    if OccursAt(r, "https://", i) && i + 8 < |r| {
      assert r[i..][..8] == "https://";
    }
    if OccursAt(r, "http://", i) && i + 7 < |r| {
      assert r[i..][..7] == "http://";
    }
  }
}
