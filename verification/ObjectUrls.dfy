/** Object URLs and their parsing (common/s3_util.py). The parser is that of Python's
    urllib.parse for https URLs (section 3 of RFC 3986), which also drops the tab and line
    characters and cuts the parameters of the last path segment. */
module ObjectUrls {
  import opened Wrappers

  const SCHEME := "https://"
  const HOST := ".s3.amazonaws.com"

  function UrlOf(bucket: string, key: string): string {
    SCHEME + (bucket + HOST + ("/" + key))
  }

  lemma UrlIsLiteral(bucket: string, key: string)
    ensures UrlOf(bucket, key) == "https://" + bucket + ".s3.amazonaws.com/" + key
  {
    assert ".s3.amazonaws.com/" == HOST + "/";
    Regroup("https://", bucket, HOST, "/", key);
  }

  lemma Regroup(a: string, b: string, c: string, d: string, e: string)
    ensures a + (b + c + (d + e)) == a + b + (c + d) + e
  {
  }

  // The text before the first character of `stop`.
  function Before(s: string, stop: set<char>): (r: string)
    ensures |r| <= |s|
  {
    if s == [] || s[0] in stop then [] else [s[0]] + Before(s[1..], stop)
  }

  function LastSegment(s: string): string {
    if '/' in s then LastSegment(s[1..]) else s
  }

  function CutParams(path: string): (r: string)
    ensures |r| <= |path|
  {
    if path == [] then []
    else if '/' in path[1..] then [path[0]] + CutParams(path[1..])
    else Before(path, {';'})
  }

  function Strip(s: string): (r: string)
    ensures |r| <= |s|
  {
    if s == [] then []
    else (if s[0] in {'\t', '\r', '\n'} then [] else [s[0]]) + Strip(s[1..])
  }

  function LowerChar(c: char): char {
    if 'A' <= c <= 'Z' then c - 'A' + 'a' else c
  }

  function Lower(s: string): (r: string)
    ensures |r| == |s| && forall i | 0 <= i < |s| :: r[i] == LowerChar(s[i])
  {
    if s == [] then [] else [LowerChar(s[0])] + Lower(s[1..])
  }

  /** Bucket and key of an https URL; None when the source would raise. */
  function GetBucketAndKeyFromUrl(url: string): Option<(string, string)> {
    var clean := Strip(url);
    if |clean| <= |SCHEME| || clean[..|SCHEME|] != SCHEME then None
    else
      var rest := clean[|SCHEME|..];
      var netloc := Before(rest, {'/', '?', '#'});
      var path := CutParams(Before(Before(rest[|netloc|..], {'#'}), {'?'}));
      if netloc == [] then None
      else Some((Before(Lower(netloc), {'.'}), if path == [] then [] else path[1..]))
  }

  // ---------- when parsing undoes construction ----------

  // The characters of bucket names, and capitals, which S3 refuses but the code does not.
  predicate BucketChars(bucket: string) {
    forall i | 0 <= i < |bucket| ::
      var c := bucket[i]; 'a' <= c <= 'z' || 'A' <= c <= 'Z' || '0' <= c <= '9' || c == '-' || c == '.'
  }

  predicate Free(s: string, stop: set<char>) {
    forall i | 0 <= i < |s| :: s[i] !in stop
  }

  predicate PlainBucket(bucket: string) {
    forall i | 0 <= i < |bucket| :: bucket[i] != '.' && !('A' <= bucket[i] <= 'Z')
  }

  predicate PlainKey(key: string) {
    Free(key, {'?', '#', '\t', '\r', '\n'}) && ';' !in LastSegment(key)
  }

  lemma {:induction false} BeforeIsWhole(s: string, stop: set<char>)
    ensures Before(s, stop) == s <==> Free(s, stop)
  {
    if s != [] {
      BeforeIsWhole(s[1..], stop);
      if s[0] !in stop {
        assert s == [s[0]] + s[1..];
      }
    }
  }

  lemma {:induction false} BeforeStop(a: string, b: string, stop: set<char>)
    requires Free(a, stop) && b != [] && b[0] in stop
    ensures Before(a + b, stop) == a
  {
    if a == [] {
      assert a + b == b;
    } else {
      assert (a + b)[1..] == a[1..] + b;
      BeforeStop(a[1..], b, stop);
    }
  }

  lemma {:induction false} StripIsWhole(s: string)
    ensures Strip(s) == s <==> Free(s, {'\t', '\r', '\n'})
  {
    if s != [] {
      StripIsWhole(s[1..]);
      assert s == [s[0]] + s[1..];
    }
  }

  lemma {:induction false} StripConcat(a: string, b: string)
    ensures Strip(a + b) == Strip(a) + Strip(b)
  {
    if a == [] {
      assert a + b == b;
    } else {
      assert (a + b)[1..] == a[1..] + b;
      StripConcat(a[1..], b);
    }
  }

  lemma {:induction false} CutParamsIsWhole(s: string)
    ensures CutParams(s) == s <==> ';' !in LastSegment(s)
  {
    if s != [] {
      assert s == [s[0]] + s[1..];
      if '/' in s[1..] {
        CutParamsIsWhole(s[1..]);
      } else {
        BeforeIsWhole(s, {';'});
        if s[0] == '/' {
          assert LastSegment(s) == s[1..];
        }
      }
    }
  }

  lemma LastSegmentAfterSlash(key: string)
    ensures LastSegment("/" + key) == LastSegment(key)
  {
    assert ("/" + key)[1..] == key;
  }

  // The key comes back exactly when it is plain.
  lemma PathRoundTripIff(key: string)
    ensures CutParams(Before(Before("/" + Strip(key), {'#'}), {'?'})) == "/" + key <==> PlainKey(key)
  {
    var path := "/" + Strip(key);
    StripIsWhole(key);
    BeforeIsWhole(path, {'#'});
    BeforeIsWhole(path, {'?'});
    CutParamsIsWhole("/" + key);
    LastSegmentAfterSlash(key);
    var cut := CutParams(Before(Before(path, {'#'}), {'?'}));
    if cut == "/" + key {
      assert |Strip(key)| == |key|;
      StripShorter(key);
      SameLengthWhole(path, {'#'});
      SameLengthWhole(path, {'?'});
    }
    assert |path| == |key| + 1 && path == "/" + key ==> forall i | 0 <= i < |key| :: path[i + 1] == key[i];
    if PlainKey(key) {
      assert Free(path, {'#'}) && Free(path, {'?'});
    }
  }

  lemma {:induction false} SameLengthWhole(s: string, stop: set<char>)
    requires |Before(s, stop)| == |s|
    ensures Before(s, stop) == s
  {
    if s != [] {
      SameLengthWhole(s[1..], stop);
      assert s == [s[0]] + s[1..];
    }
  }

  lemma {:induction false} StripShorter(s: string)
    requires |Strip(s)| == |s|
    ensures Strip(s) == s
  {
    if s != [] {
      StripShorter(s[1..]);
      assert s == [s[0]] + s[1..];
    }
  }

  lemma BucketRoundTripIff(bucket: string)
    ensures Before(Lower(bucket + HOST), {'.'}) == bucket <==> PlainBucket(bucket)
  {
    var host := Lower(bucket + HOST);
    var low := Lower(bucket);
    assert host[..|bucket|] == low;
    assert host[|bucket|] == '.';
    assert host == low + host[|bucket|..];
    if Free(low, {'.'}) {
      BeforeStop(low, host[|bucket|..], {'.'});
      if low == bucket {
        assert forall i | 0 <= i < |bucket| :: bucket[i] == low[i] == LowerChar(bucket[i]);
      }
    } else {
      var i :| 0 <= i < |low| && low[i] == '.';
      assert LowerChar(bucket[i]) == '.';
      BeforeShort(host, i, {'.'});
    }
    assert PlainBucket(bucket) ==> low == bucket;
  }

  lemma {:induction false} BeforeShort(s: string, i: nat, stop: set<char>)
    requires i < |s| && s[i] in stop
    ensures |Before(s, stop)| <= i
  {
    if i > 0 {
      BeforeShort(s[1..], i - 1, stop);
    }
  }

  lemma CleanUrl(bucket: string, key: string)
    requires BucketChars(bucket)
    ensures Strip(UrlOf(bucket, key)) == SCHEME + (bucket + HOST + ("/" + Strip(key)))
  {
    assert Free(bucket + HOST, {'\t', '\r', '\n'});
    StripTail(SCHEME, bucket + HOST, "/", key);
  }

  lemma StripTail(a: string, b: string, c: string, d: string)
    requires Free(a, {'\t', '\r', '\n'}) && Free(b, {'\t', '\r', '\n'}) && Free(c, {'\t', '\r', '\n'})
    ensures Strip(a + (b + (c + d))) == a + (b + (c + Strip(d)))
  {
    StripConcat(a, b + (c + d));
    StripConcat(b, c + d);
    StripConcat(c, d);
    StripIsWhole(a);
    StripIsWhole(b);
    StripIsWhole(c);
  }

  lemma SplitNetloc(bucket: string, tail: string)
    requires BucketChars(bucket)
    ensures Before(bucket + HOST + ("/" + tail), {'/', '?', '#'}) == bucket + HOST
    ensures (bucket + HOST + ("/" + tail))[|bucket + HOST|..] == "/" + tail
  {
    BeforeStop(bucket + HOST, "/" + tail, {'/', '?', '#'});
  }

  /** Parsing undoes construction exactly for dot-free lower-case buckets and plain keys. */
  lemma UrlRoundTripIff(bucket: string, key: string)
    requires BucketChars(bucket)
    ensures GetBucketAndKeyFromUrl(UrlOf(bucket, key)) == Some((bucket, key)) <==>
            (PlainBucket(bucket) && PlainKey(key))
  {
    var tail := Strip(key);
    CleanUrl(bucket, key);
    SplitNetloc(bucket, tail);
    PathRoundTripIff(key);
    BucketRoundTripIff(bucket);
    PathKeepsSlash(tail);
    var clean, rest := Strip(UrlOf(bucket, key)), bucket + HOST + ("/" + tail);
    assert clean[..|SCHEME|] == SCHEME && clean[|SCHEME|..] == rest;
    var path := CutParams(Before(Before("/" + tail, {'#'}), {'?'}));
    assert path == ['/'] + path[1..];
    assert GetBucketAndKeyFromUrl(UrlOf(bucket, key)) == Some((Before(Lower(bucket + HOST), {'.'}), path[1..]));
  }

  lemma PathKeepsSlash(key: string)
    ensures var path := CutParams(Before(Before("/" + key, {'#'}), {'?'})); path != [] && path[0] == '/'
  {
    var a := Before("/" + key, {'#'});
    assert a[0] == '/';
    var b := Before(a, {'?'});
    assert b[0] == '/';
  }

  // ---------- other URLs ----------

  /** Parsing fails exactly when no host follows the scheme. */
  lemma ParsingFailsIff(url: string)
    ensures GetBucketAndKeyFromUrl(url).None? <==>
            var clean := Strip(url); |clean| <= 8 || clean[..8] != "https://" || clean[8] in {'/', '?', '#'}
  {
    var clean := Strip(url);
    if |clean| > 8 && clean[..8] == "https://" {
      assert clean[8..][0] == clean[8];
    }
  }

  // A part of a URL that is absent or begins with its sign.
  predicate Part(part: string, sign: char) {
    part == "" || part[0] == sign
  }

  lemma CutAt(a: string, b: string, stop: set<char>)
    requires Free(a, stop) && (b == "" || b[0] in stop)
    ensures Before(a + b, stop) == a
  {
    if b == "" {
      assert a + b == a;
      BeforeIsWhole(a, stop);
    } else {
      BeforeStop(a, b, stop);
    }
  }

  lemma FreeOfBoth(a: string, b: string, stop: set<char>)
    requires Free(a, stop) && Free(b, stop)
    ensures Free(a + b, stop)
  {
  }

  // The path alone is left once fragment and query are cut.
  lemma PathOfTail(path: string, query: string, fragment: string)
    requires Free(path, {'?', '#'}) && ';' !in LastSegment(path)
    requires Part(query, '?') && Free(query, {'#'}) && Part(fragment, '#')
    ensures CutParams(Before(Before(path + (query + fragment), {'#'}), {'?'})) == path
  {
    assert path + (query + fragment) == path + query + fragment;
    FreeOfBoth(path, query, {'#'});
    CutAt(path + query, fragment, {'#'});
    CutAt(path, query, {'?'});
    CutParamsIsWhole(path);
  }

  lemma StripParts(host: string, path: string, query: string, fragment: string)
    requires Free(host, {'\t', '\r', '\n'}) && Free(path, {'\t', '\r', '\n'})
    requires Free(query, {'\t', '\r', '\n'}) && Free(fragment, {'\t', '\r', '\n'})
    ensures var url := SCHEME + (host + (path + (query + fragment))); Strip(url) == url
  {
    FreeOfBoth(query, fragment, {'\t', '\r', '\n'});
    FreeOfBoth(path, query + fragment, {'\t', '\r', '\n'});
    FreeOfBoth(host, path + (query + fragment), {'\t', '\r', '\n'});
    FreeOfBoth(SCHEME, host + (path + (query + fragment)), {'\t', '\r', '\n'});
    StripIsWhole(SCHEME + (host + (path + (query + fragment))));
  }

  /** Of any URL with a plain host the bucket is the host up to its first dot, in small letters, and the key is
      the path without its first character; query and fragment are ignored. */
  lemma ParsedParts(host: string, path: string, query: string, fragment: string)
    requires host != "" && BucketChars(host)
    requires Part(path, '/') && Free(path, {'?', '#'}) && Free(path, {'\t', '\r', '\n'}) && ';' !in LastSegment(path)
    requires Part(query, '?') && Free(query, {'#'}) && Free(query, {'\t', '\r', '\n'})
    requires Part(fragment, '#') && Free(fragment, {'\t', '\r', '\n'})
    ensures GetBucketAndKeyFromUrl("https://" + (host + (path + (query + fragment))))
         == Some((Before(Lower(host), {'.'}), if path == "" then "" else path[1..]))
  {
    var tail := path + (query + fragment);
    var url := SCHEME + (host + tail);
    assert Free(host, {'\t', '\r', '\n'}) && Free(host, {'/', '?', '#'});
    StripParts(host, path, query, fragment);
    assert url[..|SCHEME|] == SCHEME && url[|SCHEME|..] == host + tail;
    CutAt(host, tail, {'/', '?', '#'});
    assert (host + tail)[|host|..] == tail;
    PathOfTail(path, query, fragment);
  }
}
