/** Cloud URLs: parsing, printing and the prefix URLs made for wildcard listing. */
module CloudUrl {
  import opened Sequences
  import opened Wrappers

  datatype UrlError = NoMatch | RelativeObjectName | SlashAfterScheme

  /** A parsed URL; absent parts are Python's None. */
  datatype Url = Url(scheme: string, bucket: Option<string>, object_: Option<string>, generation: Option<string>)

  // ---------------------------------------------------------------------------
  // Finding characters
  // ---------------------------------------------------------------------------

  /** The first index of `c`, or the length. */
  function IndexOf(s: string, c: char): (i: nat)
    ensures i <= |s| && (forall k :: 0 <= k < i ==> s[k] != c) && (i < |s| ==> s[i] == c)
  {
    if s == "" || s[0] == c then 0 else 1 + IndexOf(s[1..], c)
  }

  lemma IndexOfUnique(a: string, c: char, b: string)
    requires c !in a && (b != "" ==> b[0] == c)
    ensures IndexOf(a + b, c) == |a|
  {
    var s := a + b;
    assert forall k :: 0 <= k < |a| ==> s[k] == a[k];
    assert b != "" ==> s[|a|] == c;
  }

  /** The last index of `c`, or -1. */
  function LastIndexOf(s: string, c: char): (i: int)
    ensures -1 <= i < |s| && (forall k :: i < k < |s| ==> s[k] != c) && (i >= 0 ==> s[i] == c)
  {
    if s == "" then -1
    else if s[|s| - 1] == c then |s| - 1
    else LastIndexOf(s[..|s| - 1], c)
  }

  lemma LastIndexIs(s: string, c: char, i: nat)
    requires i < |s| && s[i] == c && forall k :: i < k < |s| ==> s[k] != c
    ensures LastIndexOf(s, c) == i
  {
    var last := LastIndexOf(s, c);
    assert last <= i && i <= last;
  }

  lemma {:induction false} LastIndexOfUnique(a: string, c: char, b: string)
    requires c !in b
    ensures LastIndexOf(a + [c] + b, c) == |a|
  {
    var s := a + [c] + b;
    forall k | |a| < k < |s| ensures s[k] != c {
      assert s[k] == b[k - |a| - 1] && b[k - |a| - 1] in b;
    }
    LastIndexIs(s, c, |a|);
  }

  // ---------------------------------------------------------------------------
  // The regular expressions, on strings without newlines
  // ---------------------------------------------------------------------------

  predicate Digits(s: string) { forall i :: 0 <= i < |s| ==> '0' <= s[i] <= '9' }

  predicate IsProvider(s: string, p: string) { ':' !in p && s == p + "://" }

  predicate IsBucket(s: string, p: string, b: string) {
    ':' !in p && '/' !in b && (s == p + "://" + b || s == p + "://" + b + "/")
  }

  predicate IsObject(s: string, p: string, b: string, o: string) {
    ':' !in p && '/' !in b && s == p + "://" + b + "/" + o
  }

  predicate IsGeneration(o: string, name: string, g: string) {
    name != "" && g != "" && Digits(g) && o == name + "#" + g
  }

  predicate IsVersion(o: string, name: string, v: string) { name != "" && v != "" && o == name + "#" + v }

  /** The scheme and what follows "://", when the first colon starts one. */
  function SchemeSplit(s: string): (m: Option<(string, string)>)
    ensures m.Some? ==> ':' !in m.value.0 && s == m.value.0 + "://" + m.value.1
  {
    var i := IndexOf(s, ':');
    if i + 3 <= |s| && s[i..i + 3] == "://" then Some((s[..i], s[i + 3..])) else None
  }

  lemma SchemeSplitOf(p: string, rest: string)
    requires ':' !in p
    ensures SchemeSplit(p + "://" + rest) == Some((p, rest))
  {
    var s := p + "://" + rest;
    assert s == p + ("://" + rest);
    IndexOfUnique(p, ':', "://" + rest);
    assert s[|p|..|p| + 3] == "://" && s[..|p|] == p && s[|p| + 3..] == rest;
  }

  function ProviderMatch(s: string): (m: Option<string>)
    ensures m.Some? ==> IsProvider(s, m.value)
  {
    var split := SchemeSplit(s);
    if split.Some? && split.value.1 == "" then Some(split.value.0) else None
  }

  function BucketMatch(s: string): (m: Option<(string, string)>)
    ensures m.Some? ==> IsBucket(s, m.value.0, m.value.1)
  {
    match SchemeSplit(s)
    case None => None
    case Some((p, rest)) =>
      var j := IndexOf(rest, '/');
      var b := rest[..j];
      assert j + 1 == |rest| ==> rest == b + "/";
      CatAssoc(p + "://", b, "/");
      if j + 1 >= |rest| then Some((p, b)) else None
  }

  function ObjectMatch(s: string): (m: Option<(string, string, string)>)
    ensures m.Some? ==> IsObject(s, m.value.0, m.value.1, m.value.2)
  {
    match SchemeSplit(s)
    case None => None
    case Some((p, rest)) =>
      var j := IndexOf(rest, '/');
      if j < |rest| then
        var b, o := rest[..j], rest[j + 1..];
        assert rest == b + ("/" + o);
        CatAssoc(p + "://", b, "/" + o);
        CatAssoc(p + "://" + b, "/", o);
        Some((p, b, o))
      else None
  }

  lemma BucketMatchOf(s: string, p: string, b: string)
    requires IsBucket(s, p, b)
    ensures BucketMatch(s) == Some((p, b))
  {
    var tail := if s == p + "://" + b then "" else "/";
    assert s == p + "://" + (b + tail);
    SchemeSplitOf(p, b + tail);
    IndexOfUnique(b, '/', tail);
    assert (b + tail)[..|b|] == b;
  }

  lemma ObjectMatchOf(s: string, p: string, b: string, o: string)
    requires IsObject(s, p, b, o)
    ensures ObjectMatch(s) == Some((p, b, o))
  {
    var rest := b + ("/" + o);
    assert s == p + "://" + rest;
    SchemeSplitOf(p, rest);
    IndexOfUnique(b, '/', "/" + o);
    assert rest[..|b|] == b && rest[|b| + 1..] == o;
  }

  /** Each match finds a string's parts if and only if the expression matches, and they are unique. */
  lemma MatchesExact(s: string, p: string, b: string, o: string)
    ensures IsProvider(s, p) <==> ProviderMatch(s) == Some(p)
    ensures IsBucket(s, p, b) <==> BucketMatch(s) == Some((p, b))
    ensures IsObject(s, p, b, o) <==> ObjectMatch(s) == Some((p, b, o))
  {
    if IsProvider(s, p) {
      assert s == p + "://" + "";
      SchemeSplitOf(p, "");
    }
    if IsBucket(s, p, b) { BucketMatchOf(s, p, b); }
    if IsObject(s, p, b, o) { ObjectMatchOf(s, p, b, o); }
  }

  /** `object#generation`: only digits follow the last `#`. */
  function GenerationMatch(o: string): (m: Option<(string, string)>)
    ensures m.Some? ==> IsGeneration(o, m.value.0, m.value.1)
  {
    var k := LastIndexOf(o, '#');
    if 0 < k && k + 1 < |o| && Digits(o[k + 1..]) then Some((o[..k], o[k + 1..])) else None
  }

  lemma GenerationExact(o: string, name: string, g: string)
    ensures IsGeneration(o, name, g) <==> GenerationMatch(o) == Some((name, g))
  {
    if IsGeneration(o, name, g) {
      LastIndexOfUnique(name, '#', g);
      assert o[..|name|] == name && o[|name| + 1..] == g;
    }
  }

  /** `object#version`: the last `#` that has something on both sides. */
  function VersionMatch(o: string): (m: Option<(string, string)>)
    ensures m.Some? ==> IsVersion(o, m.value.0, m.value.1)
  {
    var k := if o == "" then -1 else LastIndexOf(o[..|o| - 1], '#');
    if 0 < k then Some((o[..k], o[k + 1..])) else None
  }

  /** The match takes the longest name of all splits there are, and is found if there is one. */
  lemma VersionGreedy(o: string, name: string, v: string)
    requires IsVersion(o, name, v)
    ensures VersionMatch(o).Some? && |name| <= |VersionMatch(o).value.0|
  {
    var front := o[..|o| - 1];
    var k := LastIndexOf(front, '#');
    assert front[|name|] == o[|name|] == '#';
  }

  // ---------------------------------------------------------------------------
  // Parsing and printing
  // ---------------------------------------------------------------------------

  /** The object name and its generation or version, for the schemes that have one. */
  function SplitVersion(scheme: string, o: string): (string, Option<string>) {
    var m := if scheme == "gs" then GenerationMatch(o) else if scheme == "s3" then VersionMatch(o) else None;
    if m.Some? then (m.value.0, Some(m.value.1)) else (o, None)
  }

  /** No `#` between the first character and the last. */
  predicate NoHashInside(s: string) { forall i :: 1 <= i < |s| - 1 ==> s[i] != '#' }

  lemma VersionExact(o: string)
    ensures VersionMatch(o).None? <==> NoHashInside(o)
  {
    var m := VersionMatch(o);
    if m.Some? {
      assert o[|m.value.0|] == '#';
    } else {
      forall i | 1 <= i < |o| - 1 ensures o[i] != '#' {
        assert o[..|o| - 1][i] == o[i];
      }
    }
  }

  /** Google Cloud Storage names have the generation that the digits behind their last `#` are, S3 names the
      version that leaves the longest name, and no other names have one. */
  lemma SplitVersionExact(scheme: string, o: string, name: string, v: string)
    ensures scheme == "gs" ==> (SplitVersion(scheme, o) == (name, Some(v)) <==> IsGeneration(o, name, v))
    ensures scheme == "s3" ==> (SplitVersion(scheme, o) == (o, None) <==> NoHashInside(o))
    ensures scheme == "s3" && IsVersion(o, name, v) ==>
      var (longest, version) := SplitVersion(scheme, o);
      version.Some? && IsVersion(o, longest, version.value) && |name| <= |longest|
    ensures scheme != "gs" && scheme != "s3" ==> SplitVersion(scheme, o) == (o, None)
  {
    GenerationExact(o, name, v);
    VersionExact(o);
    if IsVersion(o, name, v) { VersionGreedy(o, name, v); }
  }

  /** What follows "://" starts with a slash. */
  predicate SlashFollows(s: string, scheme: string) {
    |scheme| + 3 < |s| && s[|scheme| + 3] == '/'
  }

  function Parse(s: string): Result<Url, UrlError> {
    var provider, bucket, object_ := ProviderMatch(s), BucketMatch(s), ObjectMatch(s);
    if provider.Some? then Ok(Url(provider.value, None, None, None))
    else if bucket.Some? then
      var (p, b) := bucket.value;
      if SlashFollows(s, p) then Err(SlashAfterScheme) else Ok(Url(p, Some(b), None, None))
    else if object_.Some? then
      var (p, b, o) := object_.value;
      if o == "." || o == ".." then Err(RelativeObjectName)
      else if SlashFollows(s, p) then Err(SlashAfterScheme)
      else
        var (name, generation) := SplitVersion(p, o);
        Ok(Url(p, Some(b), Some(name), generation))
    else Err(NoMatch)
  }

  /** The URL object: its fields are set, and set again, while the string is taken apart. */
  class StorageUrl {
    var scheme: string
    var bucketName: Option<string>
    var objectName: Option<string>
    var generation: Option<string>

    constructor ()
      ensures Value() == Url("", None, None, None)
    {
      scheme, bucketName, objectName, generation := "", None, None, None;
    }

    ghost function Value(): Url
      reads this
    {
      Url(scheme, bucketName, objectName, generation)
    }

    static method Create(s: string) returns (r: Result<StorageUrl, UrlError>)
      ensures r.Ok? ==> fresh(r.value) && Parse(s) == Ok(r.value.Value())
      ensures r.Err? ==> Parse(s) == Err(r.error)
    {
      var u := new StorageUrl();
      var provider, bucket := ProviderMatch(s), BucketMatch(s);
      if provider.Some? {
        u.scheme := provider.value;
      } else if bucket.Some? {
        u.scheme, u.bucketName := bucket.value.0, Some(bucket.value.1);
      } else {
        var object_ := ObjectMatch(s);
        if object_.None? { return Err(NoMatch); }
        var (p, b, o) := object_.value;
        u.scheme, u.bucketName, u.objectName := p, Some(b), Some(o);
        if o == "." || o == ".." { return Err(RelativeObjectName); }
        var split := if p == "gs" then GenerationMatch(o) else if p == "s3" then VersionMatch(o) else None;
        if split.Some? {
          u.objectName, u.generation := Some(split.value.0), Some(split.value.1);
        }
      }
      if SlashFollows(s, u.scheme) { return Err(SlashAfterScheme); }
      return Ok(u);
    }
  }

  /** A part that counts as true in Python: there, and not empty. */
  predicate Has(x: Option<string>) { x.Some? && x.value != "" }

  function Shown(x: Option<string>): string { if x.Some? then x.value else "None" }

  function Versionless(u: Url): string {
    if u.scheme != "" && !Has(u.bucket) then u.scheme + "://"
    else if Has(u.bucket) && !Has(u.object_) then u.scheme + "://" + Shown(u.bucket) + "/"
    else u.scheme + "://" + Shown(u.bucket) + "/" + Shown(u.object_)
  }

  function Print(u: Url): string {
    if Has(u.generation) then Versionless(u) + "#" + u.generation.value else Versionless(u)
  }

  function StripOneSlash(s: string): string {
    if s != "" && s[|s| - 1] == '/' then s[..|s| - 1] else s
  }

  function CreatePrefixUrl(u: Url, wildcard: Option<string>): string {
    var prefix := StripOneSlash(Versionless(u));
    if Has(wildcard) then prefix + "/" + wildcard.value else prefix
  }

  /** What every parsed URL satisfies. */
  predicate WellFormed(u: Url) {
    && ':' !in u.scheme
    && (if u.bucket.None? then u.object_.None? && u.generation.None? else
        && '/' !in u.bucket.value && u.bucket.value != ""
        && (if u.object_.None? then u.generation.None? else
            var printed := u.object_.value + if u.generation.Some? then "#" + u.generation.value else "";
            && u.object_.value != "" && printed != "." && printed != ".."
            && (u.generation.Some? ==> u.generation.value != "")
            && SplitVersion(u.scheme, printed) == (u.object_.value, u.generation)))
  }

  /** The object as it is written in a URL. */
  function PrintedObject(u: Url): string
    requires u.object_.Some?
  {
    u.object_.value + if u.generation.Some? then "#" + u.generation.value else ""
  }

  lemma SplitVersionJoins(scheme: string, o: string)
    requires o != ""
    ensures
      var (name, g) := SplitVersion(scheme, o);
      && name != "" && (g.Some? ==> g.value != "")
      && name + (if g.Some? then "#" + g.value else "") == o
  {
    var (name, g) := SplitVersion(scheme, o);
    if g.Some? { assert name + "#" + g.value == name + ("#" + g.value); }
  }

  lemma ParseBucket(p: string, b: string, tail: string)
    requires ':' !in p && '/' !in b && b != "" && (tail == "" || tail == "/")
    ensures Parse(p + "://" + b + tail) == Ok(Url(p, Some(b), None, None))
  {
    var s := p + "://" + b + tail;
    assert tail == "" ==> s == p + "://" + b;
    MatchesExact(s, p, b, "");
    assert s == p + "://" + (b + tail);
    SchemeSplitOf(p, b + tail);
    assert ProviderMatch(s).None?;
    assert s[|p| + 3] == b[0] != '/';
  }

  /** An object URL parses to its bucket and the split name, unless the name is a relative path symbol. */
  lemma ParseObject(p: string, b: string, o: string)
    requires ':' !in p && '/' !in b && b != "" && o != ""
    ensures
      var (name, g) := SplitVersion(p, o);
      Parse(p + "://" + b + "/" + o) ==
        if o == "." || o == ".." then Err(RelativeObjectName) else Ok(Url(p, Some(b), Some(name), g))
  {
    var s := p + "://" + b + "/" + o;
    MatchesExact(s, p, b, o);
    var rest := b + ("/" + o);
    assert s == p + "://" + rest;
    SchemeSplitOf(p, rest);
    IndexOfUnique(b, '/', "/" + o);
    assert ProviderMatch(s).None? && BucketMatch(s).None?;
    assert s[|p| + 3] == b[0] != '/';
  }

  /** Every provider and every bucket parses. */
  lemma ParseContainer(s: string, p: string, b: string)
    ensures IsProvider(s, p) ==> Parse(s) == Ok(Url(p, None, None, None))
    ensures IsBucket(s, p, b) && b != "" ==> Parse(s) == Ok(Url(p, Some(b), None, None))
  {
    MatchesExact(s, p, b, "");
    if IsBucket(s, p, b) && b != "" { ParseBucket(p, b, if s == p + "://" + b then "" else "/"); }
  }

  /** What matches is refused only for a slash too many behind the scheme, or for a name that is a relative
      path symbol. */
  lemma RefusedExact(s: string, p: string, b: string, o: string)
    requires o != ""
    ensures IsObject(s, p, b, o) && (o == "." || o == "..") ==> Parse(s) == Err(RelativeObjectName)
    ensures IsObject(s, p, b, o) && o != "." && o != ".." ==> (Parse(s) == Err(SlashAfterScheme) <==> b == "")
    ensures ':' !in p ==> Parse(p + ":///") == Err(SlashAfterScheme)
  {
    if IsObject(s, p, b, o) {
      NotShorter(s, p, b, o);
      if b != "" { ParseObject(p, b, o); }
    }
    if ':' !in p { ParseEmptyBucket(p); }
  }

  lemma ParseEmptyBucket(p: string)
    requires ':' !in p
    ensures Parse(p + ":///") == Err(SlashAfterScheme)
  {
    var s := p + ":///";
    assert s == p + "://" + "" + "/" && s == p + "://" + "/";
    BucketMatchOf(s, p, "");
    SchemeSplitOf(p, "/");
  }

  /** Nothing matches exactly if the first colon does not start a "://". */
  lemma NoMatchExact(s: string)
    ensures Parse(s) == Err(NoMatch) <==> SchemeSplit(s).None?
    ensures SchemeSplit(s).None? <==> !exists k :: 0 <= k <= |s| - 3 && s[k..k + 3] == "://" && ':' !in s[..k]
  {
    if k: nat :| k <= |s| - 3 && s[k..k + 3] == "://" && ':' !in s[..k] {
      assert s == s[..k] + "://" + s[k + 3..];
      SchemeSplitOf(s[..k], s[k + 3..]);
    }
    if SchemeSplit(s).Some? {
      var p := SchemeSplit(s).value.0;
      assert s[..|p|] == p && s[|p|..|p| + 3] == "://";
    }
  }

  lemma NotShorter(s: string, p: string, b: string, o: string)
    requires IsObject(s, p, b, o) && o != ""
    ensures ObjectMatch(s) == Some((p, b, o))
    ensures ProviderMatch(s).None? && BucketMatch(s).None? && (b == "" ==> SlashFollows(s, p))
  {
    var rest := b + ("/" + o);
    assert s == p + "://" + rest;
    ObjectMatchOf(s, p, b, o);
    SchemeSplitOf(p, rest);
    IndexOfUnique(b, '/', "/" + o);
  }

  lemma ParsedIsWellFormed(s: string)
    requires Parse(s).Ok?
    ensures WellFormed(Parse(s).value)
  {
    if ProviderMatch(s).None? {
      var (p, rest) := SchemeSplit(s).value;
      assert s[|p| + 3..] == rest && s[|p| + 3] == rest[0];
      var j := IndexOf(rest, '/');
      assert rest[..j] != "";
      if BucketMatch(s).None? { SplitVersionJoins(p, rest[j + 1..]); }
    }
  }

  lemma PrintObject(u: Url)
    requires WellFormed(u) && u.object_.Some?
    ensures Print(u) == u.scheme + "://" + u.bucket.value + "/" + PrintedObject(u)
  {
    var o := u.object_.value;
    if u.generation.Some? {
      var front, g := u.scheme + "://" + u.bucket.value + "/", u.generation.value;
      CatAssoc(front + o, "#", g);
      CatAssoc(front, o, "#" + g);
    } else {
      assert o + "" == o;
    }
  }

  lemma PrintParsedObject(s: string)
    requires Parse(s).Ok? && Parse(s).value.object_.Some?
    ensures Print(Parse(s).value) == s
  {
    ParsedIsWellFormed(s);
    PrintObject(Parse(s).value);
    var (p, b, o) := ObjectMatch(s).value;
    var (p', rest) := SchemeSplit(s).value;
    assert o != "" by { assert s == p + "://" + b + "/" + o; if o == "" { BucketMatchOf(s, p, b); } }
    SplitVersionJoins(p, o);
  }

  lemma PrintParsedBucket(s: string)
    requires Parse(s).Ok? && Parse(s).value.bucket.Some? && Parse(s).value.object_.None?
    ensures Print(Parse(s).value) == if s[|s| - 1] == '/' then s else s + "/"
  {
    ParsedIsWellFormed(s);
    var (p, b) := BucketMatch(s).value;
    assert s == p + "://" + b ==> s[|s| - 1] == b[|b| - 1];
    assert b[|b| - 1] in b;
  }

  lemma PrintProvider(p: string)
    ensures Print(Url(p, None, None, None)) == if p == "" then "://None/None" else p + "://"
  {
  }

  lemma PrintParsedProvider(s: string)
    requires Parse(s).Ok? && Parse(s).value.bucket.None?
    ensures s == "://" ==> Print(Parse(s).value) == "://None/None"
    ensures s != "://" ==> Print(Parse(s).value) == s
    ensures s == Parse(s).value.scheme + "://"
  {
    var p := ProviderMatch(s).value;
    PrintProvider(p);
    assert |s| == |p| + 3;
    assert p == "" ==> p + "://" == "://";
  }

  /** Printing a parsed URL gives back the string it was parsed from, with a slash added to a bare
      bucket; and this fails for exactly one string, which is printed as "://None/None". */
  lemma RoundTrip(s: string)
    requires Parse(s).Ok?
    ensures
      var u := Parse(s).value;
      var slash := if u.bucket.Some? && u.object_.None? && s[|s| - 1] != '/' then "/" else "";
      (Print(u) == s + slash <==> s != "://")
  {
    var u := Parse(s).value;
    assert s + "" == s;
    if u.bucket.None? {
      PrintParsedProvider(s);
      assert |"://None/None"| == 12;
    } else if u.object_.None? {
      PrintParsedBucket(s);
      NotBare(s);
    } else {
      PrintParsedObject(s);
      NotBare(s);
    }
  }

  lemma NotBare(s: string)
    requires Parse(s).Ok? && Parse(s).value.bucket.Some?
    ensures s != "://"
  {
    MatchesExact(s, "", "", "");
    assert "" + "://" == "://";
  }

  /** Parsing what a parsed URL prints gives the same URL, with the same generation or version. */
  lemma ReparseEqual(s: string)
    requires Parse(s).Ok? && s != "://"
    ensures Parse(Print(Parse(s).value)) == Parse(s)
  {
    var u := Parse(s).value;
    if u.bucket.None? {
      PrintParsedProvider(s);
    } else if u.object_.None? {
      ParsedIsWellFormed(s);
      ParseBucket(u.scheme, u.bucket.value, "/");
    } else {
      PrintParsedObject(s);
    }
  }

  // ---------------------------------------------------------------------------
  // Prefix URLs
  // ---------------------------------------------------------------------------

  /** The string ends in `#` and digits, and so in something that looks like a generation. */
  ghost predicate EndsInGeneration(w: string) {
    exists k :: 0 <= k < |w| - 1 && w[k] == '#' && Digits(w[k + 1..])
  }

  lemma GenerationBehind(o: string, w: string)
    ensures GenerationMatch(o + "/" + w).None? <==> !EndsInGeneration(w)
  {
    var s := o + "/" + w;
    assert s[|o|] == '/' && forall i :: |o| < i < |s| ==> s[i] == w[i - |o| - 1];
    var m := GenerationMatch(s);
    if m.Some? {
      var k := |m.value.0|;
      assert s[k] == '#' && m.value.1 == s[k + 1..];
      assert forall i :: k < i < |s| ==> s[i] == m.value.1[i - k - 1];
      assert k > |o|;
      assert w[k - |o| - 1] == '#' && w[k - |o|..] == s[k + 1..];
    } else if EndsInGeneration(w) {
      var k :| 0 <= k < |w| - 1 && w[k] == '#' && Digits(w[k + 1..]);
      LookLikeGeneration(o, w, k);
      assert false;
    }
  }

  lemma LookLikeGeneration(o: string, w: string, k: nat)
    requires k < |w| - 1 && w[k] == '#' && Digits(w[k + 1..])
    ensures GenerationMatch(o + "/" + w).Some?
  {
    var name, g := o + "/" + w[..k], w[k + 1..];
    assert w == w[..k] + "#" + w[k + 1..];
    assert o + "/" + w == name + "#" + g;
    GenerationExact(o + "/" + w, name, g);
  }

  /** One trailing slash is taken away, and nothing else. */
  lemma StripExact(name: string, x: string)
    ensures StripOneSlash(name) == x <==> name == x + "/" || (name == x && (x == "" || x[|x| - 1] != '/'))
  {
    if name != "" && name[|name| - 1] == '/' { assert name == name[..|name| - 1] + "/"; }
  }

  /** The wildcard URL made from an object URL names the same bucket, and an object that keeps every slash
      of the object's name but one trailing one, if and only if: for a Google Cloud Storage URL, the
      wildcard does not look like a generation at its end; for an S3 URL, there is no `#` inside the name
      and the wildcard together, as S3 versions may contain anything. */
  lemma PrefixOfObject(s: string, x: string, w: string)
    requires Parse(s).Ok? && Parse(s).value.object_.Some? && w != ""
    requires
      var name := Parse(s).value.object_.value;
      name == x + "/" || (name == x && x != "" && x[|x| - 1] != '/')
    ensures
      var u := Parse(s).value;
      && u.bucket.Some? && CreatePrefixUrl(u, Some(w)) == u.scheme + "://" + u.bucket.value + "/" + (x + "/" + w)
      && (Parse(CreatePrefixUrl(u, Some(w))) == Ok(Url(u.scheme, u.bucket, Some(x + "/" + w), None)) <==>
          (u.scheme == "gs" ==> !EndsInGeneration(w)) && (u.scheme == "s3" ==> NoHashInside(x + "/" + w)))
  {
    var u := Parse(s).value;
    ParsedIsWellFormed(s);
    StripExact(u.object_.value, x);
    PrefixText(u, w);
    PrefixParses(u.scheme, u.bucket.value, x, w);
  }

  lemma PrefixParses(p: string, b: string, x: string, w: string)
    requires ':' !in p && '/' !in b && b != "" && w != ""
    ensures Parse(p + "://" + b + "/" + (x + "/" + w)) == Ok(Url(p, Some(b), Some(x + "/" + w), None)) <==>
            (p == "gs" ==> !EndsInGeneration(w)) && (p == "s3" ==> NoHashInside(x + "/" + w))
  {
    assert (x + "/" + w)[|x|] == '/';
    ParseObject(p, b, x + "/" + w);
    GenerationBehind(x, w);
    VersionExact(x + "/" + w);
  }

  /** Without a wildcard, or with an empty one, the prefix URL of an object is its URL without generation and
      without one trailing slash: so that of an object named `/` is its bucket's. */
  lemma ObjectPrefixWithoutWildcard(s: string, x: string, w: Option<string>)
    requires Parse(s).Ok? && Parse(s).value.object_.Some? && !Has(w)
    requires
      var name := Parse(s).value.object_.value;
      name == x + "/" || (name == x && x != "" && x[|x| - 1] != '/')
    ensures
      var u := Parse(s).value;
      && u.bucket.Some? && CreatePrefixUrl(u, w) == u.scheme + "://" + u.bucket.value + "/" + x
      && (Parse(CreatePrefixUrl(u, w)) == Ok(Url(u.scheme, u.bucket, None, None)) <==> x == "")
      && (u.object_.value == x && u.generation.None? ==> Parse(CreatePrefixUrl(u, w)) == Ok(u))
  {
    var u := Parse(s).value;
    ParsedIsWellFormed(s);
    BarePrefixText(u, x, w);
    BareParses(u.scheme, u.bucket.value, x);
    if u.object_.value == x && u.generation.None? { PrintParsedObject(s); }
  }

  lemma BarePrefixText(u: Url, x: string, w: Option<string>)
    requires Has(u.bucket) && Has(u.object_) && !Has(w)
    requires u.object_.value == x + "/" || (u.object_.value == x && x != "" && x[|x| - 1] != '/')
    ensures CreatePrefixUrl(u, w) == u.scheme + "://" + u.bucket.value + "/" + x
    ensures u.object_.value == x && u.generation.None? ==> CreatePrefixUrl(u, w) == Print(u)
  {
    StripExact(u.object_.value, x);
    StripBehind(u.scheme + "://" + u.bucket.value + "/", u.object_.value);
  }

  lemma BareParses(p: string, b: string, x: string)
    requires ':' !in p && '/' !in b && b != ""
    ensures Parse(p + "://" + b + "/" + x) == Ok(Url(p, Some(b), None, None)) <==> x == ""
  {
    if x == "" {
      ParseBucket(p, b, "/");
      assert p + "://" + b + "/" + x == p + "://" + b + "/";
    } else {
      ParseObject(p, b, x);
    }
  }

  /** That of a bucket is the bucket's without slash, and that of a provider ends in one slash and is no URL. */
  lemma ContainerPrefixWithoutWildcard(s: string, w: Option<string>)
    requires Parse(s).Ok? && Parse(s).value.object_.None? && s != "://" && !Has(w)
    ensures
      var u := Parse(s).value;
      && (u.bucket.Some? ==> CreatePrefixUrl(u, w) == u.scheme + "://" + u.bucket.value && Parse(CreatePrefixUrl(u, w)) == Ok(u))
      && (u.bucket.None? ==> CreatePrefixUrl(u, w) == u.scheme + ":/" && Parse(CreatePrefixUrl(u, w)) == Err(NoMatch))
  {
    var u := Parse(s).value;
    ParsedIsWellFormed(s);
    if u.bucket.Some? {
      StripSlash(u.scheme + "://" + u.bucket.value);
      ParseBucket(u.scheme, u.bucket.value, "");
      assert u.scheme + "://" + u.bucket.value + "" == u.scheme + "://" + u.bucket.value;
    } else {
      PrintParsedProvider(s);
      assert u.scheme + "://" == u.scheme + ":/" + "/";
      StripSlash(u.scheme + ":/");
      BareProvider(u.scheme);
    }
  }

  lemma BareProvider(p: string)
    requires ':' !in p
    ensures Parse(p + ":/") == Err(NoMatch)
  {
    assert p + ":/" == p + (":/");
    IndexOfUnique(p, ':', ":/");
    NoMatchExact(p + ":/");
  }

  lemma PrefixText(u: Url, w: string)
    requires Has(u.bucket) && Has(u.object_) && w != ""
    ensures CreatePrefixUrl(u, Some(w)) == u.scheme + "://" + u.bucket.value + "/" + (StripOneSlash(u.object_.value) + "/" + w)
  {
    var front, o := u.scheme + "://" + u.bucket.value + "/", u.object_.value;
    StripBehind(front, o);
    assert front + StripOneSlash(o) + "/" + w == front + (StripOneSlash(o) + "/" + w);
  }

  lemma StripBehind(front: string, o: string)
    requires o != ""
    ensures StripOneSlash(front + o) == front + StripOneSlash(o)
  {
    assert (front + o)[|front + o| - 1] == o[|o| - 1];
  }

  /** From a bucket URL it names the wildcard in that bucket, split from what looks like a generation or
      version, unless it is a relative path symbol; from a provider URL the wildcard bucket. */
  lemma PrefixOfContainer(s: string, w: string)
    requires Parse(s).Ok? && Parse(s).value.object_.None? && s != "://" && w != ""
    ensures
      var u := Parse(s).value;
      var prefix := CreatePrefixUrl(u, Some(w));
      var (name, g) := SplitVersion(u.scheme, w);
      var inBucket := if w == "." || w == ".." then Err(RelativeObjectName) else Ok(Url(u.scheme, u.bucket, Some(name), g));
      && (u.bucket.Some? ==> Parse(prefix) == inBucket)
      && (u.bucket.None? ==> prefix == u.scheme + "://" + w)
      && (u.bucket.None? && '/' !in w ==> Parse(prefix) == Ok(Url(u.scheme, Some(w), None, None)))
  {
    var u := Parse(s).value;
    ParsedIsWellFormed(s);
    if u.bucket.Some? {
      StripSlash(u.scheme + "://" + u.bucket.value);
      ParseObject(u.scheme, u.bucket.value, w);
    } else {
      PrintParsedProvider(s);
      ProviderPrefixText(u.scheme, w);
      if '/' !in w { ParseBucket(u.scheme, w, ""); }
    }
  }

  lemma StripSlash(front: string)
    ensures StripOneSlash(front + "/") == front
  {
  }

  lemma ProviderPrefixText(p: string, w: string)
    ensures StripOneSlash(p + "://") + "/" + w == p + "://" + w == p + "://" + w + ""
  {
    assert StripOneSlash(p + "://") == p + ":/";
  }

  /** The failing case of S3: for an object whose name ends in `#`, such as `a#` in bucket `b`, the
      wildcard becomes part of a version, and the object is cut short. */
  lemma S3WildcardBecomesVersion(b: string, x: string, w: string)
    requires '/' !in b && b != "" && '#' !in x && x != "" && '#' !in w && w != ""
    ensures
      var u := Url("s3", Some(b), Some(x + "#"), None);
      && Parse(Print(u)) == Ok(u)
      && Parse(CreatePrefixUrl(u, Some(w))) == Ok(Url("s3", Some(b), Some(x), Some("/" + w)))
  {
    var u := Url("s3", Some(b), Some(x + "#"), None);
    VersionsAtHash(x, w);
    ParseObject("s3", b, x + "#");
    PrefixText(u, w);
    assert (x + "#")[|x|] == '#';
    ParseObject("s3", b, x + "#" + "/" + w);
  }

  lemma VersionsAtHash(x: string, w: string)
    requires '#' !in x && x != "" && '#' !in w && w != ""
    ensures VersionMatch(x + "#").None?
    ensures VersionMatch(x + "#" + "/" + w) == Some((x, "/" + w))
    ensures x + "#" + "/" + w !in {".", ".."} && x + "#" !in {".", ".."}
  {
    var name, longer := x + "#", x + "#" + "/" + w;
    assert name[..|name| - 1] == x && name[|x|] == '#' && longer[|x|] == '#';
    LastHash(x, w);
    assert longer[..|x|] == x && longer[|x| + 1..] == "/" + w;
  }

  lemma LastHash(x: string, w: string)
    requires '#' !in w && w != ""
    ensures
      var s := x + "#" + "/" + w;
      LastIndexOf(s[..|s| - 1], '#') == |x|
  {
    var s := x + "#" + "/" + w;
    var tail := ("/" + w)[..|w|];
    assert forall i :: 0 < i < |tail| ==> tail[i] == w[i - 1];
    assert s[..|s| - 1] == x + ['#'] + tail;
    LastIndexOfUnique(x, '#', tail);
  }
}
