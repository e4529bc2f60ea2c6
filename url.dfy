/** The two browser library routines the authentication flow relies on:
    `encodeURIComponent` (ECMAScript) and the `get` of a `URLSearchParams`
    built from `location.search` (the WHATWG URL standard's
    application/x-www-form-urlencoded parser), together with the split of a
    navigation target into the `pathname` and `search` the next page sees.
    The point of the module is the round trip: a value written into a query
    with `encodeURIComponent` is read back unchanged. */
module Url {
  import opened Text
  import opened Options

  type Byte = b: int | 0 <= b < 256

  /** The characters `encodeURIComponent` copies unchanged. */
  predicate Unreserved(c: char) {
    IsAsciiAlnum(c) || c == '-' || c == '_' || c == '.' || c == '!' || c == '~'
    || c == '*' || c == '\'' || c == '(' || c == ')'
  }

  /** The UTF-8 encoding of one Unicode scalar value. */
  function Utf8(c: char): (bs: seq<Byte>)
    ensures 1 <= |bs| <= 4
    ensures |bs| == 1 <==> (c as int) < 0x80
    ensures |bs| == 1 ==> bs[0] == c as int
  {
    var n := c as int;
    if n < 0x80 then [n]
    else if n < 0x800 then [0xC0 + n / 64, 0x80 + n % 64]
    else if n < 0x10000 then [0xE0 + n / 64 / 64, 0x80 + n / 64 % 64, 0x80 + n % 64]
    else [0xF0 + n / 64 / 64 / 64, 0x80 + n / 64 / 64 % 64, 0x80 + n / 64 % 64, 0x80 + n % 64]
  }

  /** The UTF-8 encoding of a string. */
  function Utf8String(s: string): seq<Byte>
    decreases |s|
  {
    if s == [] then [] else Utf8(s[0]) + Utf8String(s[1..])
  }

  function HexDigit(d: nat): (c: char)
    requires d < 16
    ensures IsAsciiAlnum(c)
  {
    if d < 10 then DigitChar(d) else ('A' as int + d - 10) as char
  }

  predicate IsHexDigit(c: char) {
    IsAsciiDigit(c) || ('A' <= c <= 'F') || ('a' <= c <= 'f')
  }

  function HexValue(c: char): (d: nat)
    requires IsHexDigit(c)
    ensures d < 16
  {
    if IsAsciiDigit(c) then c as int - '0' as int
    else if 'A' <= c <= 'F' then c as int - 'A' as int + 10
    else c as int - 'a' as int + 10
  }

  lemma HexRoundTrip(d: nat)
    requires d < 16
    ensures IsHexDigit(HexDigit(d)) && HexValue(HexDigit(d)) == d
  {
  }

  /** `%XX` with upper-case hexadecimal digits, one triple per byte. */
  function PercentBytes(bs: seq<Byte>): (r: string)
    ensures |r| == 3 * |bs|
    ensures forall i :: 0 <= i < |r| ==> IsAsciiAlnum(r[i]) || r[i] == '%'
    decreases |bs|
  {
    if bs == [] then []
    else ['%', HexDigit(bs[0] / 16), HexDigit(bs[0] % 16)] + PercentBytes(bs[1..])
  }

  function EncodeChar(c: char): (r: string)
    ensures forall i :: 0 <= i < |r| ==> Unreserved(r[i]) || r[i] == '%'
  {
    if Unreserved(c) then [c] else PercentBytes(Utf8(c))
  }

  /** `encodeURIComponent(s)` on a string of Unicode scalar values. Its output
      holds nothing but unreserved characters and `%`, so it never contains
      a query separator such as `&`, `=`, `#`, `?` or `+`. */
  function EncodeURIComponent(s: string): (r: string)
    ensures forall i :: 0 <= i < |r| ==> Unreserved(r[i]) || r[i] == '%'
    ensures r == [] <==> s == []
    decreases |s|
  {
    if s == [] then []
    else
      var head := EncodeChar(s[0]);
      var tail := EncodeURIComponent(s[1..]);
      assert forall i :: |head| <= i < |head| + |tail| ==> (head + tail)[i] == tail[i - |head|];
      head + tail
  }

  /** A string of unreserved characters is its own encoding. */
  lemma {:induction false} EncodeUnreserved(s: string)
    requires forall i :: 0 <= i < |s| ==> Unreserved(s[i])
    ensures EncodeURIComponent(s) == s
    decreases |s|
  {
    if s != [] {
      EncodeUnreserved(s[1..]);
    }
  }

  /** The byte stage of the form-urlencoded parser: `+` is a space, `%XX` is
      one byte, a `%` not followed by two hexadecimal digits stays as it is,
      and every other character contributes its UTF-8 bytes. */
  function FormBytes(s: string): seq<Byte>
    decreases |s|
  {
    if s == [] then []
    else if s[0] == '+' then [0x20] + FormBytes(s[1..])
    else if s[0] == '%' && |s| >= 3 && IsHexDigit(s[1]) && IsHexDigit(s[2]) then
      [HexValue(s[1]) * 16 + HexValue(s[2])] + FormBytes(s[3..])
    else Utf8(s[0]) + FormBytes(s[1..])
  }

  predicate IsContinuation(b: Byte) {
    0x80 <= b < 0xC0
  }

  /** The scalar value at the front of `bs` and the number of bytes it
      takes, or `None` when the bytes there are not well-formed UTF-8. */
  function DecodeFirst(bs: seq<Byte>): (r: Option<(char, nat)>)
    requires bs != []
    ensures r.Some? ==> 1 <= r.value.1 <= |bs|
  {
    var b0 := bs[0] as int;
    if b0 < 0x80 then Some((b0 as char, 1))
    else if 0xC2 <= b0 < 0xE0 && |bs| >= 2 && IsContinuation(bs[1]) then
      Some((((b0 - 0xC0) * 64 + (bs[1] as int - 0x80)) as char, 2))
    else if 0xE0 <= b0 < 0xF0 && |bs| >= 3 && IsContinuation(bs[1]) && IsContinuation(bs[2]) then
      var n := ((b0 - 0xE0) * 64 + (bs[1] as int - 0x80)) * 64 + (bs[2] as int - 0x80);
      if 0x800 <= n && !(0xD800 <= n < 0xE000) then Some((n as char, 3)) else None
    else if 0xF0 <= b0 < 0xF5 && |bs| >= 4 && IsContinuation(bs[1]) && IsContinuation(bs[2])
      && IsContinuation(bs[3]) then
      var n := (((b0 - 0xF0) * 64 + (bs[1] as int - 0x80)) * 64 + (bs[2] as int - 0x80)) * 64 + (bs[3] as int - 0x80);
      if 0x10000 <= n < 0x110000 then Some((n as char, 4)) else None
    else None
  }

  /** UTF-8 decoding that puts U+FFFD in place of each ill-formed byte. */
  function DecodeUtf8(bs: seq<Byte>): string
    decreases |bs|
  {
    if bs == [] then []
    else match DecodeFirst(bs)
      case Some((c, n)) => [c] + DecodeUtf8(bs[n..])
      case None => ['\U{FFFD}'] + DecodeUtf8(bs[1..])
  }

  /** The encoding of one scalar value decodes back to it. */
  lemma DecodeFirstOfUtf8(c: char, rest: seq<Byte>)
    ensures DecodeFirst(Utf8(c) + rest) == Some((c, |Utf8(c)|))
  {
    var n := c as int;
    var bs := Utf8(c) + rest;
    if n < 0x80 {
    } else if n < 0x800 {
      assert (bs[0] as int - 0xC0) * 64 + (bs[1] as int - 0x80) == n;
    } else if n < 0x10000 {
      assert ((bs[0] as int - 0xE0) * 64 + (bs[1] as int - 0x80)) * 64 + (bs[2] as int - 0x80) == n;
    } else {
      assert (((bs[0] as int - 0xF0) * 64 + (bs[1] as int - 0x80)) * 64 + (bs[2] as int - 0x80)) * 64 + (bs[3] as int - 0x80) == n;
    }
  }

  /** Decoding inverts UTF-8 encoding. */
  lemma {:induction false} DecodeUtf8RoundTrip(s: string)
    ensures DecodeUtf8(Utf8String(s)) == s
    decreases |s|
  {
    if s != [] {
      var rest := Utf8String(s[1..]);
      DecodeFirstOfUtf8(s[0], rest);
      assert (Utf8(s[0]) + rest)[|Utf8(s[0])|..] == rest;
      DecodeUtf8RoundTrip(s[1..]);
    }
  }

  /** The byte stage reads a run of `%XX` triples back as the bytes they spell. */
  lemma {:induction false} FormBytesOfPercent(bs: seq<Byte>, rest: string)
    ensures FormBytes(PercentBytes(bs) + rest) == bs + FormBytes(rest)
    decreases |bs|
  {
    if bs != [] {
      var t := ['%', HexDigit(bs[0] / 16), HexDigit(bs[0] % 16)];
      assert PercentBytes(bs) + rest == t + (PercentBytes(bs[1..]) + rest);
      FormBytesOfTriple(bs[0], PercentBytes(bs[1..]) + rest);
      FormBytesOfPercent(bs[1..], rest);
      assert bs == [bs[0]] + bs[1..];
    } else {
      assert PercentBytes(bs) + rest == rest;
    }
  }

  /** The byte stage reads one `%XX` triple back as the byte it spells. */
  lemma FormBytesOfTriple(b: Byte, rest: string)
    ensures FormBytes(['%', HexDigit(b / 16), HexDigit(b % 16)] + rest) == [b] + FormBytes(rest)
  {
    var s := ['%', HexDigit(b / 16), HexDigit(b % 16)] + rest;
    HexRoundTrip(b / 16);
    HexRoundTrip(b % 16);
    assert s[0] == '%' && s[1] == HexDigit(b / 16) && s[2] == HexDigit(b % 16);
    assert HexValue(s[1]) * 16 + HexValue(s[2]) == b;
    assert s[3..] == rest;
  }

  /** The byte stage reads an unreserved character as its UTF-8 bytes. */
  lemma FormBytesOfPlain(c: char, rest: string)
    requires Unreserved(c)
    ensures FormBytes([c] + rest) == Utf8(c) + FormBytes(rest)
  {
    assert ([c] + rest)[1..] == rest;
  }

  /** The byte stage turns an encoded string into the UTF-8 bytes of the original. */
  lemma {:induction false} FormBytesOfEncoding(s: string)
    ensures FormBytes(EncodeURIComponent(s)) == Utf8String(s)
    decreases |s|
  {
    if s != [] {
      var tail := EncodeURIComponent(s[1..]);
      if Unreserved(s[0]) {
        assert ([s[0]] + tail)[1..] == tail;
      } else {
        FormBytesOfPercent(Utf8(s[0]), tail);
      }
      FormBytesOfEncoding(s[1..]);
    }
  }

  /** Decoding a form value inverts `encodeURIComponent`. */
  lemma FormDecodeOfEncoding(s: string)
    ensures DecodeUtf8(FormBytes(EncodeURIComponent(s))) == s
  {
    FormBytesOfEncoding(s);
    DecodeUtf8RoundTrip(s);
  }

  /** `s.indexOf(c)`, or `|s|` when `c` does not occur. */
  function IndexOf(s: string, c: char): (i: nat)
    ensures i <= |s|
    ensures i < |s| ==> s[i] == c
    ensures forall j :: 0 <= j < i ==> s[j] != c
    decreases |s|
  {
    if s == [] || s[0] == c then 0 else 1 + IndexOf(s[1..], c)
  }

  /** The first occurrence is the only position with those properties. */
  lemma IndexOfIs(s: string, c: char, i: nat)
    requires i <= |s| && (i < |s| ==> s[i] == c)
    requires forall j :: 0 <= j < i ==> s[j] != c
    ensures IndexOf(s, c) == i
  {
  }

  /** Searching a concatenation: the first part is searched first. */
  lemma {:induction false} IndexOfAppend(a: string, b: string, c: char)
    ensures IndexOf(a + b, c) == if IndexOf(a, c) < |a| then IndexOf(a, c) else |a| + IndexOf(b, c)
    decreases |a|
  {
    if a != [] && a[0] != c {
      assert (a + b)[1..] == a[1..] + b;
      IndexOfAppend(a[1..], b, c);
    } else if a == [] {
      assert a + b == b;
    }
  }

  /** An encoded value holds no character outside the unreserved set but `%`. */
  lemma IndexOfInEncoded(s: string, c: char)
    requires !Unreserved(c) && c != '%'
    ensures IndexOf(EncodeURIComponent(s), c) == |EncodeURIComponent(s)|
  {
  }

  /** A target `path?query` without a fragment opens `path` with `search`
      equal to `?` and the stored form of `query`. */
  lemma PathAndSearch(path: string, query: string)
    requires IndexOf(path, '?') == |path| && IndexOf(path, '#') == |path|
    requires IndexOf(query, '#') == |query| && query != []
    ensures PathOf(path + "?" + query) == path
    ensures SearchOf(path + "?" + query) == "?" + QueryEncode(query)
  {
    var url := path + ("?" + query);
    assert path + "?" + query == url;
    TargetSeparators(path, query);
    assert PathOf(url) == path by {
      assert url[..|path|] == path;
    }
    assert url[|path| + 1..|url|] == query;
    SearchOfQuery(url, |path|, |url|);
  }

  /** With the `?` at `q` and the `#` (or the end) at `h`, `search` is the
      stored form of what lies between. */
  lemma SearchOfQuery(url: string, q: nat, h: nat)
    requires IndexOf(url, '?') == q && IndexOf(url, '#') == h && q + 1 < h
    ensures SearchOf(url) == "?" + QueryEncode(url[q + 1..h])
  {
  }

  /** In `path?query` the first `?` ends the path and there is no `#`. */
  lemma TargetSeparators(path: string, query: string)
    requires IndexOf(path, '?') == |path| && IndexOf(path, '#') == |path|
    requires IndexOf(query, '#') == |query|
    ensures IndexOf(path + ("?" + query), '?') == |path|
    ensures IndexOf(path + ("?" + query), '#') == |path + ("?" + query)|
  {
    IndexOfAppend(path, "?" + query, '?');
    IndexOfAppend("?", query, '#');
    IndexOfAppend(path, "?" + query, '#');
  }

  /** The `&`-separated fields of a query. */
  function Fields(q: string): (fs: seq<string>)
    ensures |fs| >= 1
    decreases |q|
  {
    var i := IndexOf(q, '&');
    if i == |q| then [q] else [q[..i]] + Fields(q[i + 1..])
  }

  /** The decoded form of one side of a `name=value` field. */
  function FormDecode(s: string): string {
    DecodeUtf8(FormBytes(s))
  }

  /** The value of the first field whose decoded name is `name`; a field
      without `=` has the empty value, and empty fields are skipped. */
  function Lookup(fields: seq<string>, name: string): Option<string>
    decreases |fields|
  {
    if fields == [] then None
    else
      var f := fields[0];
      var eq := IndexOf(f, '=');
      if f != [] && FormDecode(f[..eq]) == name then
        Some(if eq == |f| then [] else FormDecode(f[eq + 1..]))
      else Lookup(fields[1..], name)
  }

  /** `new URLSearchParams(search).get(name)`: a leading `?` is dropped. */
  function QueryGet(search: string, name: string): Option<string> {
    var q := if search != [] && search[0] == '?' then search[1..] else search;
    Lookup(Fields(q), name)
  }

  /** The `pathname` of the page a relative target such as `/login?x=1`
      leads to: everything before the query or the fragment. */
  function PathOf(url: string): (p: string)
    ensures |p| <= |url|
  {
    var q := IndexOf(url, '?');
    var h := IndexOf(url, '#');
    url[..if q < h then q else h]
  }

  /** The `search` of that page: `?` and the query as the URL parser
      stores it, or empty when the target has no query or an empty one. */
  function SearchOf(url: string): string {
    var q := IndexOf(url, '?');
    var h := IndexOf(url, '#');
    if q < h && q + 1 < h then "?" + QueryEncode(url[q + 1..h]) else []
  }

  /** The special-query percent-encode set of the WHATWG URL standard, used
      for the query of an `http:` or `https:` URL: the C0 controls, space,
      `"`, `#`, `<`, `>`, `'`, and every code point above `~`. */
  predicate InSpecialQuerySet(c: char) {
    c <= ' ' || c == '"' || c == '#' || c == '<' || c == '>' || c == '\'' || c > '~'
  }

  /** One query character as the URL parser stores it: a character of the
      set becomes the `%XX` triples of its UTF-8 bytes. */
  function QueryEncodeChar(c: char): (r: string)
    ensures 1 <= |r| && (!InSpecialQuerySet(c) ==> r == [c])
  {
    if InSpecialQuerySet(c) then PercentBytes(Utf8(c)) else [c]
  }

  /** A `%XX` triple holds no character of the set. */
  lemma PercentOutsideQuerySet(bs: seq<Byte>)
    ensures forall i :: 0 <= i < |PercentBytes(bs)| ==> !InSpecialQuerySet(PercentBytes(bs)[i])
  {
  }

  /** The query as the URL parser stores it: every character of the set is
      replaced by the `%XX` triples of its UTF-8 bytes. Nothing is dropped,
      so the stored query is never shorter. */
  function QueryEncode(q: string): (r: string)
    ensures |r| >= |q|
    decreases |q|
  {
    if q == [] then [] else QueryEncodeChar(q[0]) + QueryEncode(q[1..])
  }

  /** The stored query holds no character of the set. */
  lemma {:induction false} QueryEncodeClean(q: string)
    ensures forall i :: 0 <= i < |QueryEncode(q)| ==> !InSpecialQuerySet(QueryEncode(q)[i])
    decreases |q|
  {
    if q != [] {
      QueryEncodeClean(q[1..]);
      PercentOutsideQuerySet(Utf8(q[0]));
      var head := QueryEncodeChar(q[0]);
      var tail := QueryEncode(q[1..]);
      assert QueryEncode(q) == head + tail;
      assert forall i :: |head| <= i < |head| + |tail| ==> (head + tail)[i] == tail[i - |head|];
    }
  }

  /** A query without a character of the set is stored as it is. */
  lemma {:induction false} QueryEncodeKeepsClean(q: string)
    requires forall i :: 0 <= i < |q| ==> !InSpecialQuerySet(q[i])
    ensures QueryEncode(q) == q
    decreases |q|
  {
    if q != [] {
      QueryEncodeKeepsClean(q[1..]);
      assert q == [q[0]] + q[1..];
    }
  }

  /** Storing a stored query again changes nothing. */
  lemma QueryEncodeIdempotent(q: string)
    ensures QueryEncode(QueryEncode(q)) == QueryEncode(q)
  {
    QueryEncodeClean(q);
    QueryEncodeKeepsClean(QueryEncode(q));
  }

  /** The parser encodes a query character by character. */
  lemma {:induction false} QueryEncodeAppend(a: string, b: string)
    ensures QueryEncode(a + b) == QueryEncode(a) + QueryEncode(b)
    decreases |a|
  {
    if a != [] {
      assert (a + b)[0] == a[0] && (a + b)[1..] == a[1..] + b;
      QueryEncodeStep(a + b);
      QueryEncodeStep(a);
      QueryEncodeAppend(a[1..], b);
    } else {
      assert a + b == b;
    }
  }

  /** The first character is stored by itself, in front of the rest. */
  lemma QueryEncodeStep(q: string)
    requires q != []
    ensures QueryEncode(q) == QueryEncodeChar(q[0]) + QueryEncode(q[1..])
  {
  }

  /** Of what `encodeURIComponent` emits for one character, the parser
      re-encodes only a `'`. */
  lemma QueryEncodeOfEncodedChar(c: char)
    ensures QueryEncode(EncodeChar(c)) == if Unreserved(c) && c != '\'' then [c] else PercentBytes(Utf8(c))
  {
    if Unreserved(c) {
      assert EncodeChar(c) == [c];
      QueryEncodeStep([c]);
      assert [c][1..] == [];
    } else {
      PercentOutsideQuerySet(Utf8(c));
      QueryEncodeKeepsClean(PercentBytes(Utf8(c)));
    }
  }

  /** The parser keeps the characters of an encoding within the unreserved
      set and `%`. */
  lemma {:induction false} QueryEncodeUnreserved(x: string)
    requires forall i :: 0 <= i < |x| ==> Unreserved(x[i]) || x[i] == '%'
    ensures forall i :: 0 <= i < |QueryEncode(x)| ==> Unreserved(QueryEncode(x)[i]) || QueryEncode(x)[i] == '%'
    decreases |x|
  {
    if x != [] {
      QueryEncodeUnreserved(x[1..]);
      var head := QueryEncodeChar(x[0]);
      var tail := QueryEncode(x[1..]);
      assert QueryEncode(x) == head + tail;
      assert forall i :: |head| <= i < |head| + |tail| ==> (head + tail)[i] == tail[i - |head|];
    }
  }

  /** An encoding holds a `'` exactly when the original does. */
  lemma {:induction false} QuoteInEncoding(s: string)
    ensures '\'' in EncodeURIComponent(s) <==> '\'' in s
    decreases |s|
  {
    if s != [] {
      QuoteInEncoding(s[1..]);
      var head := EncodeChar(s[0]);
      assert EncodeURIComponent(s) == head + EncodeURIComponent(s[1..]);
      assert '\'' in head <==> s[0] == '\'' by {
        if !Unreserved(s[0]) {
          assert forall i :: 0 <= i < |head| ==> head[i] != '\'';
        }
      }
      assert s == [s[0]] + s[1..];
    }
  }

  /** The parser changes an encoded value exactly when the original holds
      a `'`, the one unreserved character of the special-query set. */
  lemma QueryEncodeOfEncoding(s: string)
    ensures QueryEncode(EncodeURIComponent(s)) == EncodeURIComponent(s) <==> '\'' !in s
  {
    var e := EncodeURIComponent(s);
    if '\'' in s {
      QuoteInEncoding(s);
      var i :| 0 <= i < |e| && e[i] == '\'';
      QueryEncodeChanges(e, i);
    } else {
      EncodingAvoidsQuerySet(s);
      QueryEncodeKeepsClean(e);
    }
  }

  /** A query holding a character of the set is changed by the parser. */
  lemma QueryEncodeChanges(q: string, i: nat)
    requires i < |q| && InSpecialQuerySet(q[i])
    ensures QueryEncode(q) != q
  {
    QueryEncodeClean(q);
  }

  /** Without a `'` in the original, no character of an encoding is in the
      special-query set. */
  lemma EncodingAvoidsQuerySet(s: string)
    requires '\'' !in s
    ensures forall i :: 0 <= i < |EncodeURIComponent(s)| ==> !InSpecialQuerySet(EncodeURIComponent(s)[i])
  {
    QuoteInEncoding(s);
    var e := EncodeURIComponent(s);
    forall i | 0 <= i < |e| ensures !InSpecialQuerySet(e[i]) {
      assert e[i] in e;
    }
  }

  /** The byte stage reads the stored form of an encoding back as the
      UTF-8 bytes of the original: `%27` spells the byte of `'`. */
  lemma {:induction false} FormBytesOfQueryEncoding(s: string)
    ensures FormBytes(QueryEncode(EncodeURIComponent(s))) == Utf8String(s)
    decreases |s|
  {
    if s != [] {
      var head := EncodeChar(s[0]);
      var tail := EncodeURIComponent(s[1..]);
      assert EncodeURIComponent(s) == head + tail;
      QueryEncodeAppend(head, tail);
      QueryEncodeOfEncodedChar(s[0]);
      var qt := QueryEncode(tail);
      if Unreserved(s[0]) && s[0] != '\'' {
        FormBytesOfPlain(s[0], qt);
      } else {
        FormBytesOfPercent(Utf8(s[0]), qt);
      }
      FormBytesOfQueryEncoding(s[1..]);
    }
  }

  /** Decoding a stored form value inverts `encodeURIComponent`. */
  lemma FormDecodeOfQueryEncoding(s: string)
    ensures FormDecode(QueryEncode(EncodeURIComponent(s))) == s
  {
    FormBytesOfQueryEncoding(s);
    DecodeUtf8RoundTrip(s);
  }

  /** A target `base?name=value` with the value encoded. */
  function WithQuery(base: string, name: string, value: string): string {
    base + "?" + name + "=" + EncodeURIComponent(value)
  }

  /** A target built with `WithQuery` opens `base` with the one-field
      query, its value in the stored form of the encoding. */
  lemma {:induction false} WithQuerySplits(base: string, name: string, value: string)
    requires IndexOf(base, '?') == |base| && IndexOf(base, '#') == |base|
    requires forall i :: 0 <= i < |name| ==> Unreserved(name[i]) && name[i] != '\''
    ensures PathOf(WithQuery(base, name, value)) == base
    ensures SearchOf(WithQuery(base, name, value)) == "?" + name + "=" + QueryEncode(EncodeURIComponent(value))
  {
    var e := EncodeURIComponent(value);
    var head := name + "=";
    assert IndexOf(head + e, '#') == |head + e| by {
      assert forall i :: 0 <= i < |head| ==> head[i] != '#';
      IndexOfIs(head, '#', |head|);
      IndexOfInEncoded(value, '#');
      IndexOfAppend(head, e, '#');
    }
    PathAndSearch(base, head + e);
    QueryEncodeOfField(name, e);
    WithQueryParts(base, name, e, QueryEncode(e));
  }

  /** How the pieces of a `WithQuery` target group. */
  lemma WithQueryParts(base: string, name: string, e: string, x: string)
    ensures base + "?" + name + "=" + e == base + "?" + (name + "=" + e)
    ensures "?" + (name + "=" + x) == "?" + name + "=" + x
  {
  }

  /** The parser keeps a field name free of the special-query set and its
      `=` as they are. */
  lemma QueryEncodeOfField(name: string, e: string)
    requires forall i :: 0 <= i < |name| ==> Unreserved(name[i]) && name[i] != '\''
    ensures QueryEncode(name + "=" + e) == name + "=" + QueryEncode(e)
  {
    var head := name + "=";
    QueryEncodeAppend(head, e);
    forall i | 0 <= i < |head|
      ensures !InSpecialQuerySet(head[i])
    {
      if i < |name| {
        assert head[i] == name[i];
        UnreservedOutsideQuerySet(name[i]);
      }
    }
    QueryEncodeKeepsClean(head);
  }

  /** The only unreserved character in the special-query set is `'`. */
  lemma UnreservedOutsideQuerySet(c: char)
    requires Unreserved(c) && c != '\''
    ensures !InSpecialQuerySet(c)
  {
  }

  /** A query made of one field `name=` followed by the stored form of an
      encoded value gives that value back. */
  lemma {:induction false} QueryGetOfEncoded(name: string, value: string)
    requires name != []
    requires forall i :: 0 <= i < |name| ==> Unreserved(name[i])
    ensures QueryGet("?" + name + "=" + QueryEncode(EncodeURIComponent(value)), name) == Some(value)
  {
    var e := QueryEncode(EncodeURIComponent(value));
    var q := name + "=" + e;
    assert "?" + name + "=" + e == "?" + q;
    QueryGetSkipsMark(q, name);
    EncodedFieldSeparators(name, value);
    FieldsOfOne(q);
    EncodedFieldParts(name, value);
    LookupOfOne(q, name, |name|);
    FormDecodeOfQueryEncoding(value);
  }

  /** A leading `?` is not part of the query. */
  lemma QueryGetSkipsMark(q: string, name: string)
    ensures QueryGet("?" + q, name) == Lookup(Fields(q), name)
  {
    assert ("?" + q)[1..] == q;
  }

  /** `name=` followed by an encoded value splits at `|name|` into a name
      that decodes to itself and the encoded value. */
  lemma EncodedFieldParts(name: string, value: string)
    requires forall i :: 0 <= i < |name| ==> Unreserved(name[i])
    ensures var e := QueryEncode(EncodeURIComponent(value)); var q := name + "=" + e;
      |name| < |q| && FormDecode(q[..|name|]) == name && q[|name| + 1..] == e
  {
    var e := QueryEncode(EncodeURIComponent(value));
    var q := name + "=" + e;
    assert q[..|name|] == name;
    assert q[|name| + 1..] == e;
    EncodeUnreserved(name);
    FormDecodeOfEncoding(name);
  }

  /** A query without `&` is a single field. */
  lemma FieldsOfOne(q: string)
    requires IndexOf(q, '&') == |q|
    ensures Fields(q) == [q]
  {
  }

  /** Looking up the name of a single `name=value` field gives its decoded value. */
  lemma LookupOfOne(f: string, name: string, n: nat)
    requires n < |f| && IndexOf(f, '=') == n && FormDecode(f[..n]) == name
    ensures Lookup([f], name) == Some(FormDecode(f[n + 1..]))
  {
  }

  /** In `name=` followed by the stored form of an encoded value there is
      no `&`, and the first `=` is the one after the name. */
  /** A string of unreserved characters and `%` has no `&`. */
  lemma NoAmpersandIn(x: string)
    requires forall i :: 0 <= i < |x| ==> Unreserved(x[i]) || x[i] == '%'
    ensures IndexOf(x, '&') == |x|
  {
    IndexOfIs(x, '&', |x|);
  }

  /** In `name=`, the first `=` is the one after the name, and there is no `&`. */
  lemma FieldHeadSeparators(name: string)
    requires forall i :: 0 <= i < |name| ==> Unreserved(name[i])
    ensures IndexOf(name + "=", '&') == |name| + 1 && IndexOf(name + "=", '=') == |name|
  {
    var head := name + "=";
    assert forall j :: 0 <= j < |name| ==> head[j] == name[j];
    IndexOfIs(head, '&', |head|);
    IndexOfIs(head, '=', |name|);
  }

  lemma EncodedFieldSeparators(name: string, value: string)
    requires forall i :: 0 <= i < |name| ==> Unreserved(name[i])
    ensures var q := name + "=" + QueryEncode(EncodeURIComponent(value));
      IndexOf(q, '&') == |q| && IndexOf(q, '=') == |name|
  {
    var e := QueryEncode(EncodeURIComponent(value));
    var head := name + "=";
    FieldHeadSeparators(name);
    QueryEncodeUnreserved(EncodeURIComponent(value));
    NoAmpersandIn(e);
    IndexOfAppend(head, e, '&');
    IndexOfAppend(head, e, '=');
    assert name + "=" + e == head + e;
  }
}
