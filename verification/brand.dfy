/**
 * The two string helpers of `SEMAnalysis`: `extract_brand_name`, which turns a website
 * address into a display name, and `suggest_match_types`, which picks a match type from the
 * number of words in a keyword.
 */
module Brand {
  import opened Strings

  const Https: string := "https://"
  const Http: string := "http://"
  const Www: string := "www."

  /** `url.replace('https://', '').replace('http://', '').replace('www.', '')` */
  function WithoutPrefixes(url: string): string {
    Replace(Replace(Replace(url, Https, ""), Http, ""), Www, "")
  }

  /**
   * `extract_brand_name`: `"Unknown"` for an empty address; otherwise the title-cased text
   * before the first `.` of the part before the first `/`, once every `https://`, `http://`
   * and `www.` is removed. The name never holds a `.` or a `/` and is already title-cased.
   */
  function ExtractBrandName(url: string): (r: string)
    ensures url == [] ==> r == "Unknown"
    ensures url != [] ==> '.' !in r && '/' !in r
    ensures url != [] ==> Title(r) == r
  {
    if url == [] then "Unknown"
    else
      var domain := Before(WithoutPrefixes(url), '/');
      var brand := if '.' in domain then Before(domain, '.') else domain;
      TitleIdempotent(brand);
      TitleKeeps(brand, '.');
      TitleKeeps(brand, '/');
      Title(brand)
  }

  /** Title-casing keeps every character that is not a letter where it was. */
  lemma TitleKeeps(s: string, c: char)
    requires !IsLetter(c)
    ensures c in Title(s) <==> c in s
  {
    var t := Title(s);
    if c in t {
      var i :| 0 <= i < |t| && t[i] == c;
      assert !IsLetter(s[i]);
    }
    if c in s {
      var i :| 0 <= i < |s| && s[i] == c;
      assert t[i] == c;
    }
  }

  /** `http://` holds no `https://`, even with text after it. */
  lemma HttpIsNotHttps(rest: string)
    requires rest != []
    ensures Replace(Http + rest, Https, "") == Http + Replace(rest, Https, "")
  {
    var s := Http + rest;
    assert s[4] == ':' && Https[4] == 's';
    assert s[..|Https|] != Https;
    assert s[1..] == Http[1..] + rest;
    ReplaceSkips(Http[1..], rest, Https, "");
    assert Http == [Http[0]] + Http[1..];
  }

  /** A leading `https://` does not change the brand. */
  lemma HttpsPrefixIgnored(rest: string)
    requires rest != []
    ensures ExtractBrandName(Https + rest) == ExtractBrandName(rest)
  {
    ReplaceLeading(Https, rest, "");
    assert "" + Replace(rest, Https, "") == Replace(rest, Https, "");
  }

  /** A leading `http://` does not change the brand. */
  lemma HttpPrefixIgnored(rest: string)
    requires rest != []
    ensures ExtractBrandName(Http + rest) == ExtractBrandName(rest)
  {
    HttpIsNotHttps(rest);
    var x := Replace(rest, Https, "");
    ReplaceLeading(Http, x, "");
    assert "" + Replace(x, Http, "") == Replace(x, Http, "");
  }

  /** A leading `www.` does not change the brand. */
  lemma WwwPrefixIgnored(rest: string)
    requires rest != []
    ensures ExtractBrandName(Www + rest) == ExtractBrandName(rest)
  {
    assert Https[0] == 'h' && Http[0] == 'h';
    assert 'h' !in Www;
    ReplaceSkips(Www, rest, Https, "");
    var x := Replace(rest, Https, "");
    ReplaceSkips(Www, x, Http, "");
    var y := Replace(x, Http, "");
    ReplaceLeading(Www, y, "");
    assert "" + Replace(y, Www, "") == Replace(y, Www, "");
  }

  /** A text of letters holds no pattern that has a non-letter in it. */
  lemma LettersLackPattern(s: string, pat: string, k: nat)
    requires forall i :: 0 <= i < |s| ==> IsLetter(s[i])
    requires k < |pat| && !IsLetter(pat[k])
    ensures !Contains(s, pat)
  {
    forall i | 0 <= i <= |s| ensures !OccursAt(s, pat, i) {
      if i + |pat| <= |s| {
        assert s[i..i + |pat|][k] == s[i + k];
      }
    }
  }

  /** A bare name of letters is its own brand, title-cased. */
  lemma BareNameBrand(name: string)
    requires name != [] && forall i :: 0 <= i < |name| ==> IsLetter(name[i])
    ensures ExtractBrandName(name) == Title(name)
  {
    LettersLackPattern(name, Https, 5);
    LettersLackPattern(name, Http, 4);
    LettersLackPattern(name, Www, 3);
    ReplaceAbsent(name, Https, "");
    ReplaceAbsent(name, Http, "");
    ReplaceAbsent(name, Www, "");
    assert '/' !in name && '.' !in name;
  }

  /** `https://www.acme` and the like: the scheme and `www.` are dropped, the name title-cased. */
  lemma FullAddressBrand(name: string)
    requires name != [] && forall i :: 0 <= i < |name| ==> IsLetter(name[i])
    ensures ExtractBrandName(Https + (Www + name)) == Title(name)
    ensures ExtractBrandName(Http + (Www + name)) == Title(name)
  {
    BareNameBrand(name);
    WwwPrefixIgnored(name);
    HttpsPrefixIgnored(Www + name);
    HttpPrefixIgnored(Www + name);
  }

  /**
   * In `name + [sep] + rest`, with `name` all letters and `sep` not a letter, a pattern made
   * of `k` letters and then a non-letter can only start inside `name` by ending `name` with
   * its letters and having `sep` as its non-letter.
   */
  lemma NoEarlyMatch(name: string, sep: char, rest: string, pat: string, k: nat)
    requires forall i :: 0 <= i < |name| ==> IsLetter(name[i])
    requires !IsLetter(sep)
    requires k < |pat| && !IsLetter(pat[k]) && forall j :: 0 <= j < k ==> IsLetter(pat[j])
    requires pat[k] != sep || k > |name| || name[|name| - k..] != pat[..k]
    ensures forall i :: 0 <= i < |name| ==> !OccursAt(name + [sep] + rest, pat, i)
  {
    var s := name + [sep] + rest;
    forall i | 0 <= i < |name| ensures !OccursAt(s, pat, i) {
      if i + |pat| <= |s| {
        var w := s[i..i + |pat|];
        var j := |name| - i;
        if j < k {
          assert w[j] == sep;
        } else if j > k {
          assert w[k] == name[i + k];
        } else if pat[k] == sep {
          var m :| 0 <= m < k && name[|name| - k..][m] != pat[..k][m];
          assert w[m] == name[i + m];
        } else {
          assert w[k] == sep;
        }
      }
    }
  }

  /** Removing a pattern that cannot start inside `name` leaves `name` and `sep` in front. */
  lemma ReplaceAfterName(name: string, sep: char, rest: string, pat: string, k: nat)
    requires forall i :: 0 <= i < |name| ==> IsLetter(name[i])
    requires k < |pat| && !IsLetter(pat[k]) && forall j :: 0 <= j < k ==> IsLetter(pat[j])
    requires !IsLetter(sep) && sep != pat[0]
    requires pat[k] != sep || k > |name| || name[|name| - k..] != pat[..k]
    ensures Replace(name + [sep] + rest, pat, "") == name + [sep] + Replace(rest, pat, "")
  {
    NoEarlyMatch(name, sep, rest, pat, k);
    assert name + [sep] + rest == name + ([sep] + rest);
    ReplaceNoEarly(name, [sep] + rest, pat, "");
    ReplaceSkips([sep], rest, pat, "");
  }

  /** The scheme and `www.` removal leaves a name of letters and the separator after it alone. */
  lemma PrefixesAfterName(name: string, sep: char, rest: string)
    requires forall i :: 0 <= i < |name| ==> IsLetter(name[i])
    requires sep == '.' || sep == '/'
    requires sep == '.' ==> |name| < 3 || name[|name| - 3..] != "www"
    ensures WithoutPrefixes(name + [sep] + rest) == name + [sep] + WithoutPrefixes(rest)
  {
    var r1 := Replace(rest, Https, "");
    var r2 := Replace(r1, Http, "");
    assert Https[5] == ':' && Http[4] == ':' && Www[3] == '.' && Www[..3] == "www";
    ReplaceAfterName(name, sep, rest, Https, 5);
    ReplaceAfterName(name, sep, r1, Http, 4);
    ReplaceAfterName(name, sep, r2, Www, 3);
  }

  /**
   * The brand of `name.rest` or `name/rest`, for a name of letters, is the name title-cased:
   * only the first label of the host counts. With a `.`, the name must not end in `www`,
   * since `www.` is removed wherever it occurs.
   */
  lemma BrandBeforeSeparator(name: string, sep: char, rest: string)
    requires name != [] && forall i :: 0 <= i < |name| ==> IsLetter(name[i])
    requires sep == '.' || sep == '/'
    requires sep == '.' ==> |name| < 3 || name[|name| - 3..] != "www"
    ensures ExtractBrandName(name + [sep] + rest) == Title(name)
  {
    PrefixesAfterName(name, sep, rest);
    var r3 := WithoutPrefixes(rest);
    assert '.' !in name && '/' !in name;
    if sep == '/' {
      BeforeSeparator(name, r3, '/');
    } else {
      var tail := Before(r3, '/');
      assert name + ['.'] + r3 == (name + ['.']) + r3;
      BeforeFree(name + ['.'], r3, '/');
      assert (name + ['.']) + tail == name + ['.'] + tail;
      assert (name + ['.'] + tail)[|name|] == '.';
      BeforeSeparator(name, tail, '.');
    }
  }

  /** `https://www.acme.com/shop` and the like: the brand is the first label of the host, title-cased. */
  lemma FullHostBrand(name: string, rest: string)
    requires name != [] && forall i :: 0 <= i < |name| ==> IsLetter(name[i])
    requires |name| < 3 || name[|name| - 3..] != "www"
    ensures ExtractBrandName(Https + (Www + (name + ['.'] + rest))) == Title(name)
    ensures ExtractBrandName(Http + (Www + (name + ['.'] + rest))) == Title(name)
  {
    var host := name + ['.'] + rest;
    BrandBeforeSeparator(name, '.', rest);
    WwwPrefixIgnored(host);
    HttpsPrefixIgnored(Www + host);
    HttpPrefixIgnored(Www + host);
  }

  /**
   * `www.` is removed wherever it occurs, not only at the start: a name ending in `www`
   * loses those letters together with the dot after them.
   */
  lemma WwwInsideName()
    ensures ExtractBrandName("awww.com") == "Acom"
  {
    WwwRemovedInside();
    var t := Title("acom");
    assert t[0] == 'A' && t[1] == 'c' && t[2] == 'o' && t[3] == 'm';
  }

  /** The removals of `extract_brand_name` applied to `awww.com`. */
  lemma WwwRemovedInside()
    ensures WithoutPrefixes("awww.com") == "acom"
  {
    var url := "awww.com";
    assert Https[0] == 'h' && Http[0] == 'h' && 'h' !in url && url + [] == url;
    ReplaceSkips(url, [], Https, "");
    ReplaceSkips(url, [], Http, "");
    assert url == "a" + (Www + "com");
    ReplaceSkips("a", Www + "com", Www, "");
    ReplaceLeading(Www, "com", "");
    ReplaceShort("com", Www, "");
  }

  const BroadMatchModifier: string := "Broad Match Modifier"
  const PhraseMatch: string := "Phrase Match"
  const ExactMatch: string := "Exact Match"

  /** `suggest_match_types`: one word, two words, or anything else (including none). */
  function SuggestMatchType(keyword: string): (r: string)
    ensures r == BroadMatchModifier <==> |Split(keyword)| == 1
    ensures r == PhraseMatch <==> |Split(keyword)| == 2
    ensures r == ExactMatch <==> |Split(keyword)| != 1 && |Split(keyword)| != 2
  {
    var wordCount := |Split(keyword)|;
    if wordCount == 1 then BroadMatchModifier
    else if wordCount == 2 then PhraseMatch
    else ExactMatch
  }

  /** The match type of words joined by single spaces depends on how many words there are. */
  lemma MatchTypeOfWords(words: seq<string>)
    requires forall k :: 0 <= k < |words| ==> words[k] != [] && NoSpace(words[k])
    ensures SuggestMatchType(Join(words, " ")) ==
      if |words| == 1 then BroadMatchModifier else if |words| == 2 then PhraseMatch else ExactMatch
  {
    SplitJoin(words);
  }

  /** Whitespace around a keyword does not change its match type. */
  lemma MatchTypeIgnoresPadding(sp: string, keyword: string, tail: string)
    requires AllSpace(sp) && tail != [] && AllSpace(tail)
    ensures SuggestMatchType(sp + keyword + tail) == SuggestMatchType(keyword)
  {
    SplitSkipsSpace(sp, keyword + tail);
    assert sp + keyword + tail == sp + (keyword + tail);
    SplitAround(keyword, tail, []);
    assert keyword + tail + [] == keyword + tail;
    SplitSkipsSpace([], []);
  }

  /** An empty or blank keyword has no words, so it is an exact match. */
  lemma BlankKeywordExact(sp: string)
    requires AllSpace(sp)
    ensures SuggestMatchType(sp) == ExactMatch
  {
    SplitSkipsSpace(sp, []);
    assert sp + [] == sp;
  }
}
