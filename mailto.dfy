/**
 * The `mailto:` link both contact forms navigate to, and a parser for such
 * links in the form of section 2 of RFC 6068 (`mailto:` to `?` hfields, the
 * hfields separated by `&`, each hfield a name, `=` and a value, every part
 * percent-decoded), which shows that the link splits back into exactly the
 * two header fields it was built from.
 */
module Mailto {
  import opened Wrappers
  import opened UriComponent
  import opened ContactForm

  const Address := "nprasadgt@gmail.com"

  /** The subject the enhanced form uses when the subject field is empty. */
  const DefaultSubject := "Contact from Portfolio"

  /** The message body both forms compose from the name, email and message fields. */
  function Body(d: FormData): string {
    "Name: " + d.name + "\nEmail: " + d.email + "\n\nMessage:\n" + d.message
  }

  /** `mailto:<Address>?subject=<enc(subject)>&body=<enc(body)>`. */
  function Link(subject: string, body: string): string {
    "mailto:" + Address + "?subject=" + Encode(subject) + "&body=" + Encode(body)
  }

  /** The enhanced form's subject: `formData.subject || 'Contact from Portfolio'`. */
  function EnhancedSubject(subject: string): (s: string)
    ensures s != ""
    ensures subject != "" ==> s == subject
    ensures subject == "" ==> s == DefaultSubject
  {
    if subject == "" then DefaultSubject else subject
  }

  /** The link the enhanced form builds: the subject defaults, the body is the template. */
  function EnhancedLink(d: FormData): string {
    Link(EnhancedSubject(d.subject), Body(d))
  }

  /** The link the plain form builds: the subject is used as it is. */
  function PlainLink(d: FormData): string {
    Link(d.subject, Body(d))
  }

  // ---------------------------------------------------------------------
  // Splitting and parsing
  // ---------------------------------------------------------------------

  /** The position of the first `x` in `s`, if any. */
  function IndexOf(s: string, x: char): (r: Option<nat>)
    ensures r.None? <==> x !in s
    ensures r.Some? ==> r.value < |s| && s[r.value] == x && x !in s[..r.value]
  {
    if |s| == 0 then None
    else if s[0] == x then Some(0)
    else match IndexOf(s[1..], x)
      case None => None
      case Some(i) =>
        assert s[..i + 1] == [s[0]] + s[1..][..i];
        Some(i + 1)
  }

  /** `s` cut at every `sep`: the pieces in order, none containing `sep`. */
  function Split(s: string, sep: char): (parts: seq<string>)
    ensures |parts| >= 1
    ensures forall k :: 0 <= k < |parts| ==> sep !in parts[k]
    decreases |s|
  {
    match IndexOf(s, sep)
    case None => [s]
    case Some(i) => [s[..i]] + Split(s[i + 1..], sep)
  }

  /** The pieces glued back with `sep` between neighbours: `parts.join(sep)`. */
  function Join(parts: seq<string>, sep: char): string {
    if |parts| == 0 then []
    else if |parts| == 1 then parts[0]
    else parts[0] + [sep] + Join(parts[1..], sep)
  }

  /** Cutting at `sep` loses nothing: joining the pieces with `sep` gives the string back. */
  lemma {:induction false} JoinSplit(s: string, sep: char)
    ensures Join(Split(s, sep), sep) == s
    decreases |s|
  {
    match IndexOf(s, sep)
    case None =>
    case Some(i) =>
      var rest := Split(s[i + 1..], sep);
      assert Split(s, sep) == [s[..i]] + rest;
      assert ([s[..i]] + rest)[1..] == rest;
      JoinSplit(s[i + 1..], sep);
      assert s == s[..i] + [sep] + s[i + 1..];
  }

  datatype MailtoUri = MailtoUri(to: string, headers: seq<(string, string)>)

  /** Splits one hfield at its first `=` and decodes both halves. */
  function ParseHeader(f: string): Option<(string, string)> {
    match IndexOf(f, '=')
    case None => None
    case Some(j) =>
      var n, v := Decode(f[..j]), Decode(f[j + 1..]);
      if n.Some? && v.Some? then Some((n.value, v.value)) else None
  }

  function ParseHeaders(fields: seq<string>): (r: Option<seq<(string, string)>>)
    ensures r.Some? <==> forall k :: 0 <= k < |fields| ==> ParseHeader(fields[k]).Some?
    ensures r.Some? ==> |r.value| == |fields|
    ensures r.Some? ==> forall k :: 0 <= k < |fields| ==> ParseHeader(fields[k]) == Some(r.value[k])
  {
    if |fields| == 0 then Some([])
    else
      var h, hs := ParseHeader(fields[0]), ParseHeaders(fields[1..]);
      assert forall k :: 1 <= k < |fields| ==> fields[1..][k - 1] == fields[k];
      if h.Some? && hs.Some? then Some([h.value] + hs.value) else None
  }

  /** Parses a `mailto:` URI; `None` when it is not one or a part does not decode. */
  function Parse(uri: string): Option<MailtoUri> {
    if |uri| < 7 || uri[..7] != "mailto:" then None
    else
      var rest := uri[7..];
      match IndexOf(rest, '?')
      case None =>
        (match Decode(rest)
         case Some(to) => Some(MailtoUri(to, []))
         case None => None)
      case Some(i) =>
        var to, hs := Decode(rest[..i]), ParseHeaders(Split(rest[i + 1..], '&'));
        if to.Some? && hs.Some? then Some(MailtoUri(to.value, hs.value)) else None
  }

  // ---------------------------------------------------------------------
  // Lemmas
  // ---------------------------------------------------------------------

  lemma {:induction false} IndexOfAfter(a: string, x: char, b: string)
    requires x !in a
    ensures IndexOf(a + [x] + b, x) == Some(|a|)
  {
    if |a| > 0 {
      assert (a + [x] + b)[1..] == a[1..] + [x] + b;
      IndexOfAfter(a[1..], x, b);
    }
  }

  lemma SplitAt(a: string, sep: char, b: string)
    requires sep !in a
    ensures Split(a + [sep] + b, sep) == [a] + Split(b, sep)
  {
    var s := a + [sep] + b;
    IndexOfAfter(a, sep, b);
    assert s[..|a|] == a;
    assert s[|a| + 1..] == b;
  }

  lemma SplitNone(s: string, sep: char)
    requires sep !in s
    ensures Split(s, sep) == [s]
  {
  }

  /** A component without `%` decodes to itself. */
  lemma {:induction false} DecodePlain(s: string)
    requires '%' !in s
    ensures Decode(s) == Some(s)
  {
    if |s| > 0 {
      assert s[0] != '%';
      assert '%' !in s[1..] by { assert forall ch :: ch in s[1..] ==> ch in s; }
      DecodePlain(s[1..]);
      assert s == [s[0]] + s[1..];
    }
  }

  lemma ParseNamedHeader(name: string, e: string, value: string)
    requires '=' !in name && '%' !in name
    requires Decode(e) == Some(value)
    ensures ParseHeader(name + "=" + e) == Some((name, value))
  {
    var f := name + "=" + e;
    assert f == name + ['='] + e;
    IndexOfAfter(name, '=', e);
    assert f[..|name|] == name;
    assert f[|name| + 1..] == e;
    DecodePlain(name);
  }

  /** The layout of a link: scheme, address, `?`, then the two hfields joined by `&`. */
  lemma Reassociate(e1: string, e2: string)
    ensures "mailto:" + Address + "?subject=" + e1 + "&body=" + e2
      == "mailto:" + (Address + ['?'] + (("subject" + "=" + e1) + ['&'] + ("body" + "=" + e2)))
  {
    var q: string, s: string := "?subject=", "subject" + "=";
    var b: string, t: string := "&body=", "body" + "=";
    assert q == ['?'] + s;
    assert b == ['&'] + t;
    calc {
      "mailto:" + Address + q + e1 + b + e2;
      "mailto:" + Address + (['?'] + s) + e1 + (['&'] + t) + e2;
      "mailto:" + (Address + ['?'] + ((s + e1) + ['&'] + (t + e2)));
    }
  }

  /** A URI `mailto:to?query` with a plain address parses to that address and the query's hfields. */
  lemma ParseShape(to: string, query: string, hs: seq<(string, string)>)
    requires '?' !in to && '%' !in to
    requires ParseHeaders(Split(query, '&')) == Some(hs)
    ensures Parse("mailto:" + (to + ['?'] + query)) == Some(MailtoUri(to, hs))
  {
    var rest := to + ['?'] + query;
    var uri := "mailto:" + rest;
    assert uri[..7] == "mailto:";
    assert uri[7..] == rest;
    IndexOfAfter(to, '?', query);
    assert rest[..|to|] == to;
    assert rest[|to| + 1..] == query;
    DecodePlain(to);
  }

  lemma ParseTwoHeaders(f1: string, f2: string, h1: (string, string), h2: (string, string))
    requires ParseHeader(f1) == Some(h1) && ParseHeader(f2) == Some(h2)
    ensures ParseHeaders([f1, f2]) == Some([h1, h2])
  {
    var one, two := [f2], [f1, f2];
    assert ParseHeaders(one[1..]) == Some([]);
    var h, hs := ParseHeader(one[0]), ParseHeaders(one[1..]);
    assert [h.value] + hs.value == [h2];
    assert two[1..] == one;
    var h', hs' := ParseHeader(two[0]), ParseHeaders(two[1..]);
    assert [h'.value] + hs'.value == [h1, h2];
  }

  lemma AddressIsPlain()
    ensures '?' !in Address && '%' !in Address
  {
  }

  /** The parse of a link, for any encoded components without `&` that decode to the fields. */
  lemma ParseEncodedLink(e1: string, e2: string, subject: string, body: string)
    requires '&' !in e1 && '&' !in e2
    requires Decode(e1) == Some(subject) && Decode(e2) == Some(body)
    ensures Parse("mailto:" + Address + "?subject=" + e1 + "&body=" + e2)
      == Some(MailtoUri(Address, [("subject", subject), ("body", body)]))
  {
    var f1, f2 := "subject" + "=" + e1, "body" + "=" + e2;
    QueryFacts(e1, e2, subject, body);
    Reassociate(e1, e2);
    ParseFromParts("mailto:" + Address + "?subject=" + e1 + "&body=" + e2, f1, f2, ("subject", subject), ("body", body));
  }

  lemma QueryFacts(e1: string, e2: string, subject: string, body: string)
    requires '&' !in e1 && '&' !in e2
    requires Decode(e1) == Some(subject) && Decode(e2) == Some(body)
    ensures Split(("subject" + "=" + e1) + ['&'] + ("body" + "=" + e2), '&') == ["subject" + "=" + e1, "body" + "=" + e2]
    ensures ParseHeader("subject" + "=" + e1) == Some(("subject", subject))
    ensures ParseHeader("body" + "=" + e2) == Some(("body", body))
  {
    var f1, f2 := "subject" + "=" + e1, "body" + "=" + e2;
    assert '&' !in f1 && '&' !in f2;
    SplitAt(f1, '&', f2);
    SplitNone(f2, '&');
    ParseNamedHeader("subject", e1, subject);
    ParseNamedHeader("body", e2, body);
  }

  lemma ParseFromParts(uri: string, f1: string, f2: string, h1: (string, string), h2: (string, string))
    requires uri == "mailto:" + (Address + ['?'] + (f1 + ['&'] + f2))
    requires Split(f1 + ['&'] + f2, '&') == [f1, f2]
    requires ParseHeader(f1) == Some(h1) && ParseHeader(f2) == Some(h2)
    ensures Parse(uri) == Some(MailtoUri(Address, [h1, h2]))
  {
    ParseTwoHeaders(f1, f2, h1, h2);
    AddressIsPlain();
    ParseShape(Address, f1 + ['&'] + f2, [h1, h2]);
  }

  /**
   * The link splits back into exactly the address and the two header fields
   * it was built from, and decoding gives back the original subject and body.
   * This holds for every subject and body because encoding escapes `?`, `&`,
   * `=` and `%`.
   */
  lemma ParseLink(subject: string, body: string)
    ensures Parse(Link(subject, body)) == Some(MailtoUri(Address, [("subject", subject), ("body", body)]))
  {
    NoDelimiters(subject);
    NoDelimiters(body);
    DecodeEncode(subject);
    DecodeEncode(body);
    ParseEncodedLink(Encode(subject), Encode(body), subject, body);
  }

  /** The enhanced form's link carries the defaulted subject and the composed body. */
  lemma ParseEnhancedLink(d: FormData)
    ensures Parse(EnhancedLink(d)) == Some(MailtoUri(Address, [
      ("subject", if d.subject == "" then DefaultSubject else d.subject),
      ("body", Body(d))]))
  {
    ParseLink(EnhancedSubject(d.subject), Body(d));
  }

  /** The plain form's link carries the subject as typed, even when it is empty. */
  lemma ParsePlainLink(d: FormData)
    ensures Parse(PlainLink(d)) == Some(MailtoUri(Address, [("subject", d.subject), ("body", Body(d))]))
  {
    ParseLink(d.subject, Body(d));
  }

  /** With an empty subject the plain link has `subject=` immediately followed by `&body=`. */
  lemma PlainLinkEmptySubject(d: FormData)
    requires d.subject == ""
    ensures PlainLink(d) == "mailto:" + Address + "?subject=&body=" + Encode(Body(d))
  {
    assert Encode("") == "";
  }

  /** The two forms build the same link exactly when the subject is not empty. */
  lemma LinksAgree(d: FormData)
    ensures EnhancedLink(d) == PlainLink(d) <==> d.subject != ""
  {
    if d.subject == "" {
      ParseEnhancedLink(d);
      ParsePlainLink(d);
      assert DefaultSubject != "";
    }
  }
}
