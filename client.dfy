/** The URL handling of the command-line web client: deciding whether a URL
    is an HTTP one, and slicing the host name out of it into a fresh
    NUL-terminated `char` buffer.

    The slicing is positional and does no authority parsing: the host is
    whatever lies between the character after the first `/` and the next
    `/` after that, so `user@` and `:port` parts stay in it.
 */
module Client {
  import opened CStrings

  /** `is_HTTP_URL`: compares the first four cells of the NUL-terminated
      buffer with `h`, `t`, `t`, `p`, stopping at the first mismatch. The
      short-circuit keeps every read in bounds: a cell is only read when
      all earlier ones matched a visible letter, so the terminator has not
      been passed. The verdict is exactly "the URL starts with `http`", so
      `http:`, `https:` and `httpfoo` all pass. */
  function IsHttpUrl(url: string): (b: bool)
    ensures b <==> |url| >= 4 && url[..4] == "http"
  {
    var buf := url + ['\0'];
    buf[0] == 'h' && buf[1] == 't' && buf[2] == 't' && buf[3] == 'p'
  }

  /** Examples of the prefix test, including the strings it lets through
      that are not HTTP URLs in any real sense. */
  lemma HttpPrefixExamples()
    ensures IsHttpUrl("http://a/") && IsHttpUrl("https://a/")
    ensures IsHttpUrl("httpfoo") && IsHttpUrl("http")
    ensures !IsHttpUrl("ftp://a/") && !IsHttpUrl("htt") && !IsHttpUrl("")
    ensures !IsHttpUrl("HTTP://a/")
  {
  }

  /** What the HTTP branch of `getHostnameFromURL` needs of the URL to stay
      within the string: a first `/` at some index f that is not the last
      character (the second scan starts at f + 2, the cell after the one
      following that slash), and a further `/` at or after f + 2. Without
      one, `strchr` yields NULL and the pointer arithmetic or the copying
      loop runs outside the string. */
  predicate SlashesPresent(url: string) {
    var first := Strchr(url, 0, '/');
    first.Some? && first.value + 2 <= |url| &&
    Strchr(url, first.value + 2, '/').Some?
  }

  /** The host name `getHostnameFromURL` extracts: the characters strictly
      between the cell after the first `/` (the "second slash") and the
      next `/` found from the cell after that. */
  function HostOf(url: string): (host: string)
    requires SlashesPresent(url)
  {
    var f := Strchr(url, 0, '/').value;
    var t := Strchr(url, f + 2, '/').value;
    url[f + 2 .. t]
  }

  /** The positional reading of a URL, stated without Strchr: `f` is the
      first `/`, and `t` is the first `/` at or after `f + 2`. */
  ghost predicate IsHostSplit(url: string, f: nat, t: nat) {
    f + 2 <= t < |url| &&
    url[f] == '/' && (forall j :: 0 <= j < f ==> url[j] != '/') &&
    url[t] == '/' && (forall j :: f + 2 <= j < t ==> url[j] != '/')
  }

  /** SlashesPresent holds exactly when a split exists, and then the host is
      the slice that split delimits, whichever split one names (there is
      only one). */
  lemma HostCharacterization(url: string, f: nat, t: nat)
    ensures IsHostSplit(url, f, t) ==> SlashesPresent(url) && HostOf(url) == url[f + 2 .. t]
    ensures SlashesPresent(url) ==>
      IsHostSplit(url, Strchr(url, 0, '/').value, Strchr(url, Strchr(url, 0, '/').value + 2, '/').value)
  {
    if IsHostSplit(url, f, t) {
      StrchrFindsFirst(url, 0, '/', f);
      StrchrFindsFirst(url, f + 2, '/', t);
    }
  }

  /** Every character of the host lies strictly between two delimiting
      slashes of the URL, so the host holds no `/`; it is a contiguous slice
      of a C string, so it holds no NUL either. */
  lemma HostHasNoSlash(url: string)
    requires IsCString(url) && SlashesPresent(url)
    ensures '/' !in HostOf(url)
    ensures IsCString(HostOf(url))
  {
    var f := Strchr(url, 0, '/').value;
    var t := Strchr(url, f + 2, '/').value;
    var host := HostOf(url);
    forall k | 0 <= k < |host|
      ensures host[k] != '/' && host[k] != '\0'
    {
      assert host[k] == url[f + 2 + k];
    }
  }

  /** Round trip: a URL assembled as scheme, `/`, any one character `x`,
      host, `/`, path yields the host back, as long as neither the scheme
      nor the host holds a `/`. The usual `scheme://host/path` is the case
      `x == '/'`; `x` is skipped whatever it is, and `@`, `:` or digits in
      the host come back verbatim. */
  lemma HostOfComposed(scheme: string, x: char, host: string, path: string)
    requires '/' !in scheme && '/' !in host
    ensures var url := scheme + ['/', x] + host + ['/'] + path;
      SlashesPresent(url) && HostOf(url) == host
  {
    var url := scheme + ['/', x] + host + ['/'] + path;
    var f := |scheme|;
    var t := f + 2 + |host|;
    assert url[f] == '/';
    assert url[t] == '/';
    forall j | 0 <= j < f ensures url[j] != '/' {
      assert url[j] == scheme[j];
    }
    forall j | f + 2 <= j < t ensures url[j] != '/' {
      assert url[j] == host[j - f - 2];
    }
    assert IsHostSplit(url, f, t);
    HostCharacterization(url, f, t);
    assert url[f + 2 .. t] == host;
  }

  /** The example of the client's own documentation, written as the pieces
      it is made of. */
  lemma StanfordExample()
    ensures var url := "http:" + "//" + "web.stanford.edu" + "/" +
                       "dept/its/support/techtraining/techbriefing-media/Intro_Net_91407.ppt";
      IsHttpUrl(url) && SlashesPresent(url) && HostOf(url) == "web.stanford.edu"
  {
    HostOfComposed("http:", '/', "web.stanford.edu",
                   "dept/its/support/techtraining/techbriefing-media/Intro_Net_91407.ppt");
  }

  /** When the cell two past the first `/` is itself a `/` (as in
      `http:///x`), the second scan stops at once and the host is empty. */
  lemma EmptyHostAfterThirdSlash(url: string)
    requires SlashesPresent(url)
    requires url[Strchr(url, 0, '/').value + 2] == '/'
    ensures HostOf(url) == ""
  {
    var f := Strchr(url, 0, '/').value;
    StrchrFindsFirst(url, f + 2, '/', f + 2);
  }

  /** `http://example.com` has no `/` after the host, so the HTTP branch
      cannot be entered safely; adding the trailing slash repairs it. */
  lemma TrailingSlashNeeded()
    ensures IsHttpUrl("http://example.com") && !SlashesPresent("http://example.com")
    ensures SlashesPresent("http://example.com/") && HostOf("http://example.com/") == "example.com"
  {
    HostOfComposed("http:", '/', "example.com", "");
    assert "http:" + ['/', '/'] + "example.com" + ['/'] + "" == "http://example.com/";
    var url := "http://example.com";
    StrchrFindsFirst(url, 0, '/', 5);
  }

  /** `getHostnameFromURL`. A non-HTTP URL gives NULL (`null`). An HTTP URL
      is scanned with two `strchr` calls; the first loop appends the
      characters between the two positions to a string, and the second
      copies that string into a fresh buffer one cell longer, whose last
      cell is the NUL terminator. */
  method GetHostnameFromUrl(url: string) returns (hostChr: array?<char>)
    requires IsCString(url)
    requires IsHttpUrl(url) ==> SlashesPresent(url)
    ensures hostChr == null <==> !IsHttpUrl(url)
    ensures hostChr != null ==> fresh(hostChr)
    ensures hostChr != null ==> hostChr.Length == |HostOf(url)| + 1
    ensures hostChr != null ==> hostChr[..|HostOf(url)|] == HostOf(url)
    ensures hostChr != null ==> hostChr[|HostOf(url)|] == '\0'
  {
    if IsHttpUrl(url) {
      var secondSlash := Strchr(url, 0, '/').value + 1;
      var thirdSlash := Strchr(url, secondSlash + 1, '/').value;
      var hostName := "";

      // everything between the second and the third slash is the host name
      var i := 1;
      while secondSlash + i != thirdSlash
        invariant 1 <= i && secondSlash + i <= thirdSlash
        invariant hostName == url[secondSlash + 1 .. secondSlash + i]
        decreases thirdSlash - (secondSlash + i)
      {
        hostName := hostName + [url[secondSlash + i]];
        i := i + 1;
      }

      var strLen := |hostName|;
      hostChr := new char[strLen + 1];
      for k := 0 to strLen
        invariant hostChr[..k] == hostName[..k]
      {
        hostChr[k] := hostName[k];
      }
      hostChr[strLen] := '\0';
    } else {
      hostChr := null;
    }
  }

  /** What the caller of `getHostnameFromURL` sees when it prints or
      resolves the result: reading the buffer as a C string yields exactly
      the host, because the host holds no NUL before the terminator. */
  lemma HostBufferReadsBack(url: string, buf: seq<char>)
    requires IsCString(url) && SlashesPresent(url)
    requires |buf| == |HostOf(url)| + 1
    requires buf[..|HostOf(url)|] == HostOf(url) && buf[|HostOf(url)|] == '\0'
    ensures CStringAt(buf) == HostOf(url)
    ensures '/' !in CStringAt(buf)
  {
    var host := HostOf(url);
    HostHasNoSlash(url);
    assert buf == host + ['\0'];
    TerminatedReadsBack(host);
  }
}
