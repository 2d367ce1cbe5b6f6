/**
 Codec names and the container table. Names are compared without regard to case or surrounding
 white space; the tables are looked up exactly.
 */
module Codec {

  /** The white space of Unicode. */
  predicate IsSpace(c: char) {
    || c == ' ' || ('\t' <= c <= '\r') || c == '\U{85}' || c == '\U{A0}' || c == '\U{1680}'
    || ('\U{2000}' <= c <= '\U{200A}') || c == '\U{2028}' || c == '\U{2029}' || c == '\U{202F}'
    || c == '\U{205F}' || c == '\U{3000}'
  }

  function TrimLeft(s: string): string {
    if s != [] && IsSpace(s[0]) then TrimLeft(s[1..]) else s
  }

  function TrimRight(s: string): string {
    if s != [] && IsSpace(s[|s| - 1]) then TrimRight(s[..|s| - 1]) else s
  }

  function Trim(s: string): string {
    TrimRight(TrimLeft(s))
  }

  function Lower(c: char): char {
    if 'A' <= c <= 'Z' then c - 'A' + 'a' else c
  }

  function ToLower(s: string): (r: string)
    ensures |r| == |s|
  {
    seq(|s|, i requires 0 <= i < |s| => Lower(s[i]))
  }

  /** What is left of a name once white space and case are ignored. */
  datatype Folded = Folded(text: string)

  function Fold(s: string): Folded {
    Folded(ToLower(Trim(s)))
  }

  /** Two names refer to the same codec. */
  predicate Equal(a: string, b: string) {
    Fold(a) == Fold(b)
  }

  /** A name as the tables write it: visible ASCII, without capitals. */
  predicate IsPlain(s: string) {
    forall i :: 0 <= i < |s| ==> '!' <= s[i] <= '@' || '[' <= s[i] <= '~'
  }

  /** Plain names are equal only if they are the same. */
  lemma EqualPlain(a: string, b: string)
    requires IsPlain(a) && IsPlain(b)
    ensures Equal(a, b) <==> a == b
  {
    assert ToLower(Trim(a)) == a;
    assert ToLower(Trim(b)) == b;
  }

  const MP4 := ["h264", "hevc", "vp9", "aac", "mp3", "flac", "alac"]
  const MKV := ["h264", "hevc", "vp9", "av1", "mpeg2",
                "aac", "mp3", "flac", "alac", "opus", "ac3", "eac3", "dts", "truehd"]
  const TS := ["h264", "hevc", "mpeg2", "aac", "mp3", "ac3", "eac3", "dts"]
  const WEBM := ["vp8", "vp9", "av1", "opus", "aac", "flac"]
  const MOV := ["h264", "hevc", "aac", "mp3"]
  const AVI := ["h264", "mpeg4", "mp3", "aac"]
  const FLV := ["h264", "vp6", "aac", "mp3"]

  /** The codecs that a container can hold; none for an unknown container. */
  function SupportedCodecs(container: string): seq<string> {
    if container == "mp4" then MP4
    else if container == "mkv" then MKV
    else if container == "ts" then TS
    else if container == "webm" then WEBM
    else if container == "mov" then MOV
    else if container == "avi" then AVI
    else if container == "flv" then FLV
    else []
  }

  predicate CanContainerContain(container: string, codec: string) {
    codec in SupportedCodecs(container)
  }
}
