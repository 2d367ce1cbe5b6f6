/** MIME types with a codec, as text and as fields. */
module Mime {
  import opened Options
  import opened Strings
  import Codec

  datatype Result<+T> = Ok(value: T) | Err

  datatype MimeType = MimeType(
    type_: string, subtype: string, codec: string, parameters: seq<string>,
    isVideo: bool, isAudio: bool, isSubtitle: bool)

  const CODECS := "codecs="

  function Printed(m: MimeType): string {
    m.type_ + ['/'] + m.subtype + if m.codec == "" then "" else [';'] + ([' '] + CODECS + m.codec)
  }

  function TrimQuotesLeft(s: string): string {
    if s != [] && s[0] == '"' then TrimQuotesLeft(s[1..]) else s
  }

  function TrimQuotesRight(s: string): string {
    if s != [] && s[|s| - 1] == '"' then TrimQuotesRight(s[..|s| - 1]) else s
  }

  function TrimQuotes(s: string): string {
    TrimQuotesRight(TrimQuotesLeft(s))
  }

  /** A type and subtype, with the flag that the type stands for. */
  function Bare(type_: string, subtype: string): MimeType {
    MimeType(type_, subtype, "", [], type_ == "video", type_ == "audio", type_ == "text")
  }

  predicate HasPrefix(s: string, prefix: string) {
    prefix <= s
  }

  function WithParameter(m: MimeType, text: string): MimeType {
    var param := Codec.Trim(text);
    if HasPrefix(param, CODECS) then m.(codec := TrimQuotes(param[|CODECS|..]))
    else if param != "" then m.(parameters := m.parameters + [param])
    else m
  }

  function WithParameters(m: MimeType, texts: seq<string>): MimeType {
    if texts == [] then m else WithParameter(WithParameters(m, texts[..|texts| - 1]), texts[|texts| - 1])
  }

  function Parsed(mime: string): Result<MimeType> {
    var (head, params) := Cut(mime, ';');
    if head == "" then Err
    else
      var (type_, subtype) := Cut(head, '/');
      if subtype.None? then Err
      else
        var m := Bare(Codec.Trim(type_), Codec.Trim(subtype.value));
        Ok(if params.None? then m else WithParameters(m, Split(params.value, ',')))
  }

  /** String */
  method Print(m: MimeType) returns (s: string)
    ensures s == Printed(m)
  {
    s := m.type_ + "/" + m.subtype;
    if m.codec != "" {
      s := s + "; codecs=" + m.codec;
    }
  }

  /** The switch and the loop of ParseMIME. */
  method ParseMIME(mime: string) returns (r: Result<MimeType>)
    ensures r == Parsed(mime)
  {
    var parts := Cut(mime, ';');
    if parts.0 == "" {
      return Err;
    }
    var typeParts := Cut(parts.0, '/');
    if typeParts.1.None? {
      return Err;
    }
    var m := MimeType(Codec.Trim(typeParts.0), Codec.Trim(typeParts.1.value), "", [], false, false, false);
    if m.type_ == "video" {
      m := m.(isVideo := true);
    } else if m.type_ == "audio" {
      m := m.(isAudio := true);
    } else if m.type_ == "text" {
      m := m.(isSubtitle := true);
    }
    if parts.1.Some? {
      var params := Split(parts.1.value, ',');
      ghost var bare := m;
      for i := 0 to |params|
        invariant m == WithParameters(bare, params[..i])
      {
        assert params[..i + 1][..i] == params[..i];
        var param := Codec.Trim(params[i]);
        if HasPrefix(param, CODECS) {
          m := m.(codec := TrimQuotes(param[|CODECS|..]));
        } else if param != "" {
          m := m.(parameters := m.parameters + [param]);
        }
      }
      assert params[..|params|] == params;
    }
    return Ok(m);
  }

  // ---------- The round trip ----------

  predicate Quoted(s: string) {
    s != [] && (s[0] == '"' || s[|s| - 1] == '"')
  }

  predicate EndsInSpace(s: string) {
    s != [] && Codec.IsSpace(s[|s| - 1])
  }

  /** The codec has no separator in it, and nothing at its ends that the parser takes off. */
  predicate CanonicalCodec(codec: string) {
    ',' !in codec && !EndsInSpace(codec) && !Quoted(codec)
  }

  predicate CanonicalTypes(m: MimeType) {
    && ';' !in m.type_ && '/' !in m.type_ && Codec.Trim(m.type_) == m.type_
    && ';' !in m.subtype && Codec.Trim(m.subtype) == m.subtype
  }

  /** What can be printed without loss. The codec may hold a semicolon, and the subtype a slash. */
  predicate Canonical(m: MimeType) {
    && CanonicalTypes(m) && CanonicalCodec(m.codec) && m.parameters == []
    && m.isVideo == (m.type_ == "video") && m.isAudio == (m.type_ == "audio") && m.isSubtitle == (m.type_ == "text")
  }

  lemma {:induction false} TrimRightAfter(a: string, b: string)
    requires a != [] && !Codec.IsSpace(a[|a| - 1])
    ensures Codec.TrimRight(a + b) == a + Codec.TrimRight(b)
    decreases |b|
  {
    if b == [] {
      assert a + b == a;
    } else if Codec.IsSpace(b[|b| - 1]) {
      assert (a + b)[..|a + b| - 1] == a + b[..|b| - 1];
      TrimRightAfter(a, b[..|b| - 1]);
    }
  }

  lemma {:induction false} TrimmedQuotes(s: string)
    ensures TrimQuotes(s) == s <==> !Quoted(s)
    ensures !Quoted(TrimQuotes(s)) && |TrimQuotes(s)| <= |s| && forall c :: c in TrimQuotes(s) ==> c in s
  {
    QuotesLeft(s);
    QuotesRight(TrimQuotesLeft(s));
  }

  lemma {:induction false} QuotesLeft(s: string)
    ensures var t := TrimQuotesLeft(s);
      |t| <= |s| && t == s[|s| - |t|..] && (t != [] ==> t[0] != '"')
    decreases |s|
  {
    if s != [] && s[0] == '"' {
      QuotesLeft(s[1..]);
    }
  }

  lemma {:induction false} QuotesRight(s: string)
    ensures var t := TrimQuotesRight(s);
      |t| <= |s| && t == s[..|t|] && (t != [] ==> t[|t| - 1] != '"')
    decreases |s|
  {
    if s != [] && s[|s| - 1] == '"' {
      QuotesRight(s[..|s| - 1]);
    }
  }

  lemma {:induction false} SpacesRight(s: string)
    ensures var t := Codec.TrimRight(s);
      |t| <= |s| && t == s[..|t|] && !EndsInSpace(t)
    decreases |s|
  {
    if s != [] && Codec.IsSpace(s[|s| - 1]) {
      SpacesRight(s[..|s| - 1]);
    }
  }

  lemma CodecKept(codec: string)
    ensures TrimQuotes(Codec.TrimRight(codec)) == codec <==> !EndsInSpace(codec) && !Quoted(codec)
  {
    SpacesRight(codec);
    var t := Codec.TrimRight(codec);
    TrimmedQuotes(t);
    if |t| == |codec| {
      assert t == codec;
    } else {
      assert EndsInSpace(codec);
    }
  }

  /** How a printed type is parsed, when its type and subtype have no separators in them. */
  lemma PrintedParts(m: MimeType)
    requires ';' !in m.type_ && '/' !in m.type_ && ';' !in m.subtype && ',' !in m.codec
    ensures Parsed(Printed(m)) ==
            Ok(Bare(Codec.Trim(m.type_), Codec.Trim(m.subtype)).(codec := TrimQuotes(Codec.TrimRight(m.codec))))
  {
    var head := m.type_ + ['/'] + m.subtype;
    IndexOfFirst(m.type_, '/', m.subtype);
    if m.codec == "" {
      assert Printed(m) == head;
      assert ';' !in head;
    } else {
      var text := [' '] + CODECS + m.codec;
      assert Printed(m) == head + [';'] + text;
      assert ',' !in text;
      IndexOfFirst(head, ';', text);
      OneParameter(Bare(Codec.Trim(m.type_), Codec.Trim(m.subtype)), m.codec);
    }
  }

  lemma OneParameter(m: MimeType, codec: string)
    requires ',' !in codec
    ensures var text := [' '] + CODECS + codec;
      WithParameters(m, Split(text, ',')) == m.(codec := TrimQuotes(Codec.TrimRight(codec)))
  {
    var text := [' '] + CODECS + codec;
    assert ',' !in text;
    assert text[1..] == CODECS + codec;
    assert Codec.TrimLeft(text) == CODECS + codec;
    TrimRightAfter(CODECS, codec);
    assert Codec.Trim(text)[|CODECS|..] == Codec.TrimRight(codec);
    assert [text][..0] == [];
  }

  lemma {:induction false} ParametersKeepTypes(m: MimeType, texts: seq<string>)
    requires ',' !in m.codec && !Quoted(m.codec) && forall i :: 0 <= i < |texts| ==> ',' !in texts[i]
    ensures var r := WithParameters(m, texts);
      && r == m.(codec := r.codec, parameters := r.parameters)
      && ',' !in r.codec && !Quoted(r.codec)
    decreases |texts|
  {
    if texts != [] {
      var front, text := texts[..|texts| - 1], texts[|texts| - 1];
      ParametersKeepTypes(m, front);
      TrimMembers(text);
      var param := Codec.Trim(text);
      if HasPrefix(param, CODECS) {
        TrimmedQuotes(param[|CODECS|..]);
      }
    }
  }

  lemma {:induction false} TrimMembers(s: string)
    ensures forall c :: c in Codec.Trim(s) ==> c in s
    ensures Codec.Trim(Codec.Trim(s)) == Codec.Trim(s)
  {
    SpacesLeft(s);
    SpacesRight(Codec.TrimLeft(s));
  }

  lemma {:induction false} SpacesLeft(s: string)
    ensures var t := Codec.TrimLeft(s);
      |t| <= |s| && t == s[|s| - |t|..] && (t != [] ==> !Codec.IsSpace(t[0]))
    decreases |s|
  {
    if s != [] && Codec.IsSpace(s[0]) {
      SpacesLeft(s[1..]);
    }
  }

  /** What is parsed is canonical, but for parameters and white space that quotes protected. */
  lemma ParsedTypes(text: string)
    requires Parsed(text).Ok?
    ensures var m := Parsed(text).value;
      && CanonicalTypes(m) && ',' !in m.codec && !Quoted(m.codec)
      && m.isVideo == (m.type_ == "video") && m.isAudio == (m.type_ == "audio") && m.isSubtitle == (m.type_ == "text")
  {
    var (head, params) := Cut(text, ';');
    var (type_, subtype) := Cut(head, '/');
    assert ';' !in head && '/' !in type_;
    assert forall c :: c in type_ || c in subtype.value ==> c in head;
    TrimMembers(type_);
    TrimMembers(subtype.value);
    if params.Some? {
      ParametersKeepTypes(Bare(Codec.Trim(type_), Codec.Trim(subtype.value)), Split(params.value, ','));
    }
  }

  /** Printing and parsing gives the MIME type back iff it is canonical. */
  lemma RoundTripIff(m: MimeType)
    ensures Parsed(Printed(m)) == Ok(m) <==> Canonical(m)
  {
    if ';' !in m.type_ && '/' !in m.type_ && ';' !in m.subtype && ',' !in m.codec {
      PrintedParts(m);
      CodecKept(m.codec);
    } else if Parsed(Printed(m)) == Ok(m) {
      ParsedTypes(Printed(m));
    }
  }

  /** What was parsed is printed and parsed again without loss iff it has no parameters, and no space within quotes. */
  lemma ReparsedIff(text: string)
    requires Parsed(text).Ok?
    ensures var m := Parsed(text).value;
      Parsed(Printed(m)) == Ok(m) <==> m.parameters == [] && !EndsInSpace(m.codec)
  {
    ParsedTypes(text);
    RoundTripIff(Parsed(text).value);
  }

  // ---------- Parameters ----------

  /** The parameter names a codec. */
  predicate NamesCodec(text: string) {
    CODECS <= Codec.Trim(text)
  }

  /** The parameters that are neither empty nor name a codec, without the white space around them. */
  function OtherParameters(texts: seq<string>): seq<string> {
    if texts == [] then []
    else
      (if NamesCodec(texts[0]) || Codec.Trim(texts[0]) == "" then [] else [Codec.Trim(texts[0])]) +
      OtherParameters(texts[1..])
  }

  /** The parameter at i is the last that names a codec. */
  predicate IsLastCodec(texts: seq<string>, i: int) {
    0 <= i < |texts| && NamesCodec(texts[i]) && forall j :: i < j < |texts| ==> !NamesCodec(texts[j])
  }

  lemma {:induction false} OtherParametersSnoc(texts: seq<string>, text: string)
    ensures OtherParameters(texts + [text]) == OtherParameters(texts) + OtherParameters([text])
    decreases |texts|
  {
    if texts == [] {
      assert texts + [text] == [text];
    } else {
      assert (texts + [text])[1..] == texts[1..] + [text];
      OtherParametersSnoc(texts[1..], text);
    }
  }

  lemma {:induction false} OthersAre(m: MimeType, texts: seq<string>)
    ensures WithParameters(m, texts).parameters == m.parameters + OtherParameters(texts)
    decreases |texts|
  {
    if texts != [] {
      var front, text := texts[..|texts| - 1], texts[|texts| - 1];
      OthersAre(m, front);
      OtherParametersSnoc(front, text);
      assert texts == front + [text];
    }
  }

  lemma OneMoreText(m: MimeType, text: string)
    ensures !NamesCodec(text) ==> WithParameter(m, text).codec == m.codec
    ensures NamesCodec(text) ==> WithParameter(m, text).codec == TrimQuotes(Codec.Trim(text)[|CODECS|..])
  {
  }

  lemma {:induction false} NoCodec(m: MimeType, texts: seq<string>)
    requires forall i :: 0 <= i < |texts| ==> !NamesCodec(texts[i])
    ensures WithParameters(m, texts).codec == m.codec
    decreases |texts|
  {
    if texts != [] {
      NoCodec(m, texts[..|texts| - 1]);
      OneMoreText(WithParameters(m, texts[..|texts| - 1]), texts[|texts| - 1]);
    }
  }

  lemma {:induction false} CodecAt(m: MimeType, texts: seq<string>, i: int)
    requires IsLastCodec(texts, i)
    ensures WithParameters(m, texts).codec == TrimQuotes(Codec.Trim(texts[i])[|CODECS|..])
    decreases |texts|
  {
    var n := |texts| - 1;
    OneMoreText(WithParameters(m, texts[..n]), texts[n]);
    if i < n {
      CodecAt(m, texts[..n], i);
    }
  }

  /** Which parameters a parsed type has, and which of several codecs. */
  lemma ParametersAre(m: MimeType, texts: seq<string>)
    ensures WithParameters(m, texts).parameters == m.parameters + OtherParameters(texts)
    ensures (forall i :: 0 <= i < |texts| ==> !NamesCodec(texts[i])) ==> WithParameters(m, texts).codec == m.codec
    ensures forall i :: IsLastCodec(texts, i) ==>
              WithParameters(m, texts).codec == TrimQuotes(Codec.Trim(texts[i])[|CODECS|..])
  {
    OthersAre(m, texts);
    if forall i :: 0 <= i < |texts| ==> !NamesCodec(texts[i]) {
      NoCodec(m, texts);
    }
    forall i | IsLastCodec(texts, i)
      ensures WithParameters(m, texts).codec == TrimQuotes(Codec.Trim(texts[i])[|CODECS|..])
    {
      CodecAt(m, texts, i);
    }
  }
}
