/** The two identifiers the userscript reads out of strings: the handle of the profile being
    viewed, from the page URL, and that profile's DID, from the `at://` URI of its profile record. */
module ProfileIds {
  import opened Options
  import opened JsStrings

  /** What the page URL must include to count as a profile page. */
  const ProfileMarker: string := "bsky.app/profile/"

  /** What the page URL is split on to reach the handle. */
  const ProfileSeparator: string := "/profile/"

  /** A URL that includes the profile marker is split by the separator into at least two pieces. */
  lemma MarkerHasSeparator(url: string)
    requires Contains(url, ProfileMarker)
    ensures |Split(url, ProfileSeparator)| >= 2
  {
    var k := IndexOf(url, ProfileMarker).value;
    assert url[k + 8..k + 17] == url[k..k + 17][8..] == ProfileSeparator;
    OccurrenceContains(url, ProfileSeparator, k + 8);
  }

  /** The handle `checkCurrentProfile` takes from the URL: `url.split("/profile/")[1].split("/")[0]`,
      or None when the URL does not include the profile marker. A handle never holds a '/'. */
  function ExtractHandle(url: string): (handle: Option<string>)
    ensures handle.Some? <==> Contains(url, ProfileMarker)
    ensures handle.Some? ==> '/' !in handle.value
  {
    if !Contains(url, ProfileMarker) then None
    else
      MarkerHasSeparator(url);
      var segment := Split(url, ProfileSeparator)[1];
      var handle := Split(segment, "/")[0];
      ContainsChar(handle, '/');
      Some(handle)
  }

  /** The handle written into a profile URL is the one read back: for a URL made of a lead (the
      scheme, and whatever else precedes the host name), the profile marker, a handle without
      '/', and a rest that is empty or starts a new path segment. The lead must not itself
      contain the separator. */
  lemma ExtractHandleOfProfileUrl(lead: string, handle: string, rest: string)
    requires !Contains(lead + "bsky.app/profile", ProfileSeparator)
    requires '/' !in handle
    requires rest == [] || rest[0] == '/'
    ensures ExtractHandle(lead + ProfileMarker + handle + rest) == Some(handle)
  {
    var url := lead + ProfileMarker + handle + rest;
    var before := lead + "bsky.app";
    assert url == before + ProfileSeparator + (handle + rest);
    assert url[|lead|..|lead| + |ProfileMarker|] == ProfileMarker;
    OccurrenceContains(url, ProfileMarker, |lead|);
    assert ProfileSeparator[..|ProfileSeparator| - 1] == "/profile";
    assert before + "/profile" == lead + "bsky.app/profile";
    SplitAfterClearPrefix(before, ProfileSeparator, handle + rest);
    HandleSegment(handle, rest);
  }

  /** The piece after the first separator starts with the handle, and splitting it on '/' gives
      the handle first. */
  lemma HandleSegment(handle: string, rest: string)
    requires '/' !in handle
    requires rest == [] || rest[0] == '/'
    ensures Split(Split(handle + rest, ProfileSeparator)[0], "/")[0] == handle
  {
    var after := handle + rest;
    assert after[..|handle|] == handle;
    SplitHeadPrefix(after, ProfileSeparator, |handle|);
    var segment := Split(after, ProfileSeparator)[0];
    assert segment[..|handle|] == handle;
    if |segment| > |handle| {
      assert segment[|handle|] == after[|handle|] == rest[0];
      assert segment[|handle|..|handle| + 1] == "/";
    }
    SplitHeadExact(segment, "/", |handle|);
  }

  /** The scheme that precedes the site's host name in a profile page URL. */
  const BskyScheme: string := "https://"

  /** The site's own scheme and host do not contain the separator, so a profile page URL yields the
      handle in it. */
  lemma ExtractHandleOfBskyUrl(handle: string, rest: string)
    requires '/' !in handle
    requires rest == [] || rest[0] == '/'
    ensures ExtractHandle("https://bsky.app/profile/" + handle + rest) == Some(handle)
  {
    var s := BskyScheme + "bsky.app/profile";
    forall k: nat
      ensures !OccursAt(s, ProfileSeparator, k)
    {
      if k + 9 <= |s| {
        assert s[k..k + 9][8] == s[k + 8];
        assert s[k..k + 9][0] == s[k];
      }
    }
    assert "https://bsky.app/profile/" == BskyScheme + ProfileMarker;
    ExtractHandleOfProfileUrl(BskyScheme, handle, rest);
  }

  /** The DID `checkCurrentProfile` takes from a record URI: `uri.split("/")[2]`, None (JavaScript's
      undefined) when the URI has fewer than three '/'-separated fields. A DID never holds a '/'. */
  function ExtractDid(uri: string): (did: Option<string>)
    ensures did.Some? ==> '/' !in did.value
  {
    var parts := Split(uri, "/");
    if |parts| > 2 then
      ContainsChar(parts[2], '/');
      Some(parts[2])
    else None
  }

  /** A URI with fewer than three '/'-separated fields has no DID (JavaScript's undefined). */
  lemma ExtractDidOfShortUri(a: string, b: string)
    requires '/' !in a && '/' !in b
    ensures ExtractDid(a) == None
    ensures ExtractDid(a + "/" + b) == None
  {
    SplitWhole(a, "/");
    SplitAtFirst(a, "/", b);
    SplitWhole(b, "/");
  }

  /** The DID in a record URI `at://<did>/<collection>/<rkey>` is the one read back. */
  lemma ExtractDidOfRecordUri(did: string, rest: string)
    requires '/' !in did
    requires rest == [] || rest[0] == '/'
    ensures ExtractDid("at://" + did + rest) == Some(did)
  {
    var tail := did + rest;
    var afterScheme := "/" + tail;
    calc {
      "at://" + did + rest;
      { assert "at://" == "at:" + "/" + "/"; }
      "at:" + "/" + afterScheme;
    }
    calc {
      Split("at:" + "/" + afterScheme, "/");
      { SplitAtFirst("at:", "/", afterScheme); }
      ["at:"] + Split(afterScheme, "/");
      { assert afterScheme == "" + "/" + tail; SplitAtFirst("", "/", tail); }
      ["at:"] + ([""] + Split(tail, "/"));
    }
    DidSegment(did, rest);
  }

  /** Splitting the part after "at://" on '/' gives the DID first. */
  lemma DidSegment(did: string, rest: string)
    requires '/' !in did
    requires rest == [] || rest[0] == '/'
    ensures Split(did + rest, "/")[0] == did
  {
    assert (did + rest)[..|did|] == did;
    if rest != [] {
      assert (did + rest)[|did|..|did| + 1] == "/";
    }
    SplitHeadExact(did + rest, "/", |did|);
  }

  /** Reading back a DID from a URI with a collection and record key. */
  lemma ExtractDidOfFullRecordUri(did: string, collection: string, rkey: string)
    requires '/' !in did
    ensures ExtractDid("at://" + did + "/" + collection + "/" + rkey) == Some(did)
  {
    assert "at://" + did + "/" + collection + "/" + rkey == "at://" + did + ("/" + collection + "/" + rkey);
    ExtractDidOfRecordUri(did, "/" + collection + "/" + rkey);
  }
}
