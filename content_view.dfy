/** The two pieces of logic in `mlb2/ContentView.swift` outside the UI: the hex
    colour initialiser's channel extraction, and the multipart body of the
    audio upload request. */
module ContentView {
  import opened JsonValue

  // ---------------------------------------------------------------------------
  // Color.init(hex:)

  /** A letter or a decimal digit. */
  predicate IsAlphanumeric(c: char) {
    ('a' <= c <= 'z') || ('A' <= c <= 'Z') || ('0' <= c <= '9')
  }

  /** How many characters at the front of `s` are not alphanumeric. */
  function LeadingJunk(s: string): (n: nat)
    ensures n <= |s|
    ensures forall i :: 0 <= i < n ==> !IsAlphanumeric(s[i])
    ensures n < |s| ==> IsAlphanumeric(s[n])
  {
    if s == [] || IsAlphanumeric(s[0]) then 0 else 1 + LeadingJunk(s[1..])
  }

  /** How many characters at the back of `s` are not alphanumeric. */
  function TrailingJunk(s: string): (n: nat)
    ensures n <= |s|
    ensures forall i :: |s| - n <= i < |s| ==> !IsAlphanumeric(s[i])
    ensures n < |s| ==> IsAlphanumeric(s[|s| - n - 1])
  {
    if s == [] || IsAlphanumeric(s[|s| - 1]) then 0 else 1 + TrailingJunk(s[..|s| - 1])
  }

  /** `s.trimmingCharacters(in: CharacterSet.alphanumerics.inverted)`. */
  function Trim(s: string): string {
    var t := s[LeadingJunk(s)..];
    t[..|t| - TrailingJunk(t)]
  }

  /** Trimming keeps one contiguous piece of the input, drops only
      non-alphanumeric characters around it, and the piece begins and ends
      with an alphanumeric character; it is empty exactly when the input has
      no alphanumeric character. */
  lemma TrimSpec(s: string)
    ensures exists i, j :: (0 <= i <= j <= |s| && Trim(s) == s[i..j] &&
      (forall k :: 0 <= k < i ==> !IsAlphanumeric(s[k])) &&
      (forall k :: j <= k < |s| ==> !IsAlphanumeric(s[k])))
    ensures Trim(s) != [] ==> IsAlphanumeric(Trim(s)[0]) && IsAlphanumeric(Trim(s)[|Trim(s)| - 1])
    ensures Trim(s) == [] <==> forall k :: 0 <= k < |s| ==> !IsAlphanumeric(s[k])
  {
    var i := LeadingJunk(s);
    var t := s[i..];
    var j := i + |t| - TrailingJunk(t);
    assert Trim(s) == s[i..j];
    forall k | j <= k < |s| ensures !IsAlphanumeric(s[k]) {
      assert s[k] == t[k - i];
    }
    if Trim(s) == [] {
      assert i == |s|;
    }
  }

  predicate IsHexDigit(c: char) {
    ('0' <= c <= '9') || ('a' <= c <= 'f') || ('A' <= c <= 'F')
  }

  function HexDigitValue(c: char): (d: nat)
    requires IsHexDigit(c)
    ensures d < 16
  {
    if '0' <= c <= '9' then c as int - '0' as int
    else if 'a' <= c <= 'f' then c as int - 'a' as int + 10
    else c as int - 'A' as int + 10
  }

  predicate AllHex(s: string) {
    forall i :: 0 <= i < |s| ==> IsHexDigit(s[i])
  }

  /** The length of the run of hex digits at the front of `s`. */
  function HexRun(s: string): (n: nat)
    ensures n <= |s| && AllHex(s[..n])
    ensures n < |s| ==> !IsHexDigit(s[n])
  {
    if s == [] || !IsHexDigit(s[0]) then 0
    else
      var n := 1 + HexRun(s[1..]);
      assert s[..n] == [s[0]] + s[1..][..n - 1];
      n
  }

  /** The value of a string of hex digits, most significant first. */
  function HexValue(ds: string): nat
    requires AllHex(ds)
  {
    if ds == [] then 0 else HexValue(ds[..|ds| - 1]) * 16 + HexDigitValue(ds[|ds| - 1])
  }

  function Pow16(n: nat): (p: nat)
    ensures p > 0
  {
    if n == 0 then 1 else 16 * Pow16(n - 1)
  }

  /** `n` hex digits hold a value below `16^n`. */
  lemma {:induction false} HexValueBound(ds: string)
    requires AllHex(ds)
    ensures HexValue(ds) < Pow16(|ds|)
  {
    if ds != [] {
      HexValueBound(ds[..|ds| - 1]);
    }
  }

  /** One more digit: the value so far times 16, plus the digit. */
  lemma HexValueSnoc(t: string, i: nat)
    requires i < |t| && AllHex(t)
    ensures AllHex(t[..i]) && AllHex(t[..i + 1])
    ensures HexValue(t[..i + 1]) == HexValue(t[..i]) * 16 + HexDigitValue(t[i])
  {
    assert t[..i + 1][..i] == t[..i];
  }

  /** The value of a prefix of hex digits, digit by digit. */
  function DigitAt(t: string, i: nat): nat
    requires i < |t| && AllHex(t)
  {
    HexDigitValue(t[i])
  }

  lemma HexValue3(t: string)
    requires |t| == 3 && AllHex(t)
    ensures HexValue(t) == DigitAt(t, 0) * 0x100 + DigitAt(t, 1) * 0x10 + DigitAt(t, 2)
  {
    assert t[..0] == [];
    HexValueSnoc(t, 0);
    HexValueSnoc(t, 1);
    HexValueSnoc(t, 2);
    assert t[..3] == t;
  }

  lemma HexValue6(t: string)
    requires |t| == 6 && AllHex(t)
    ensures HexValue(t) == (DigitAt(t, 0) * 0x10 + DigitAt(t, 1)) * 0x1_0000
                         + (DigitAt(t, 2) * 0x10 + DigitAt(t, 3)) * 0x100
                         + (DigitAt(t, 4) * 0x10 + DigitAt(t, 5))
  {
    assert t[..0] == [];
    HexValueSnoc(t, 0);
    HexValueSnoc(t, 1);
    HexValueSnoc(t, 2);
    HexValueSnoc(t, 3);
    HexValueSnoc(t, 4);
    HexValueSnoc(t, 5);
    assert t[..6] == t;
  }

  lemma HexValue8(t: string)
    requires |t| == 8 && AllHex(t)
    ensures HexValue(t) == (DigitAt(t, 0) * 0x10 + DigitAt(t, 1)) * 0x100_0000
                         + (DigitAt(t, 2) * 0x10 + DigitAt(t, 3)) * 0x1_0000
                         + (DigitAt(t, 4) * 0x10 + DigitAt(t, 5)) * 0x100
                         + (DigitAt(t, 6) * 0x10 + DigitAt(t, 7))
  {
    assert t[..0] == [];
    HexValueSnoc(t, 0);
    HexValueSnoc(t, 1);
    HexValueSnoc(t, 2);
    HexValueSnoc(t, 3);
    HexValueSnoc(t, 4);
    HexValueSnoc(t, 5);
    HexValueSnoc(t, 6);
    HexValueSnoc(t, 7);
    assert t[..8] == t;
  }

  /** `Scanner(string: s).scanHexInt64(&int)` starting from `int == 0`: an
      optional `0x` or `0X`, then the leading run of hex digits; no digits
      leave the value 0. */
  function ScanHexInt64(s: string): nat {
    var digits := if |s| >= 2 && s[0] == '0' && (s[1] == 'x' || s[1] == 'X') then s[2..] else s;
    HexValue(digits[..HexRun(digits)])
  }

  /** The scanned value has no more hex digits than the string has characters. */
  lemma ScanBound(s: string)
    ensures ScanHexInt64(s) < Pow16(|s|)
  {
    var digits := if |s| >= 2 && s[0] == '0' && (s[1] == 'x' || s[1] == 'X') then s[2..] else s;
    var run := digits[..HexRun(digits)];
    HexValueBound(run);
    PowMonotone(|run|, |s|);
  }

  lemma {:induction false} PowMonotone(m: nat, n: nat)
    requires m <= n
    ensures Pow16(m) <= Pow16(n)
    decreases n
  {
    if m < n {
      PowMonotone(m, n - 1);
    }
  }

  /** A string of hex digits scans as its whole value. */
  lemma ScanAllHex(s: string)
    requires AllHex(s)
    ensures ScanHexInt64(s) == HexValue(s)
  {
    assert HexRun(s) == |s|;
    assert s[..|s|] == s;
  }

  /** The alpha, red, green and blue channels before their division by 255. */
  datatype Argb = Argb(a: nat, r: nat, g: nat, b: nat)

  const DefaultArgb: Argb := Argb(1, 1, 1, 0)

  /** The channels `Color(hex:)` computes: `x >> k` is `x / 2^k` and
      `x & m` is `x % (m + 1)` on the scanned unsigned value. */
  function HexToArgb(hex: string): (c: Argb) {
    var t := Trim(hex);
    var v := ScanHexInt64(t);
    if |t| == 3 then Argb(255, (v / 0x100) * 17, (v / 0x10) % 0x10 * 17, v % 0x10 * 17)
    else if |t| == 6 then Argb(255, v / 0x1_0000, (v / 0x100) % 0x100, v % 0x100)
    else if |t| == 8 then Argb(v / 0x100_0000, (v / 0x1_0000) % 0x100, (v / 0x100) % 0x100, v % 0x100)
    else DefaultArgb
  }

  /** For 3, 6 and 8 trimmed characters every channel is a byte; the scanned
      value then fits the scanner's 64 bits, so the unbounded arithmetic here
      is the source's. Any other length gives the fixed default. */
  lemma ChannelsInRange(hex: string)
    ensures var n := |Trim(hex)|;
      (n == 3 || n == 6 || n == 8) ==>
        ScanHexInt64(Trim(hex)) < 0x1_0000_0000_0000_0000 &&
        var c := HexToArgb(hex); c.a < 256 && c.r < 256 && c.g < 256 && c.b < 256
    ensures var n := |Trim(hex)|; n != 3 && n != 6 && n != 8 ==> HexToArgb(hex) == Argb(1, 1, 1, 0)
  {
    var t := Trim(hex);
    ScanBound(t);
    assert Pow16(3) == 0x1000;
    assert Pow16(6) == 0x100_0000;
    assert Pow16(8) == 0x1_0000_0000;
  }

  /** Euclidean division by a positive constant recovers quotient and remainder. */
  lemma DivMod(v: int, m: int, q: int, r: int)
    requires m > 0 && 0 <= r < m && v == q * m + r
    ensures v / m == q && v % m == r
  {
    var q', r' := v / m, v % m;
    assert v == q' * m + r';
    assert (q - q') * m == r' - r;
    if q > q' {
      AtLeastOnce(q - q', m);
    } else if q < q' {
      AtLeastOnce(q' - q, m);
    }
  }

  lemma AtLeastOnce(d: int, m: int)
    requires d >= 1 && m > 0
    ensures d * m >= m
  {
    assert d * m == (d - 1) * m + m;
  }

  /** Three hex digits: alpha is opaque and each digit `d` becomes the byte
      `d * 17`, which is `d` written twice (`0xd * 17 == 0xdd`). */
  lemma Hex3Channels(hex: string)
    requires |Trim(hex)| == 3 && AllHex(Trim(hex))
    ensures var t := Trim(hex);
      && HexToArgb(hex) == Argb(255, DigitAt(t, 0) * 17, DigitAt(t, 1) * 17, DigitAt(t, 2) * 17)
      && forall i :: 0 <= i < 3 ==> DigitAt(t, i) * 17 == DigitAt(t, i) * 0x10 + DigitAt(t, i)
  {
    var t := Trim(hex);
    ScanAllHex(t);
    HexValue3(t);
    var v, d0, d1, d2 := HexValue(t), DigitAt(t, 0), DigitAt(t, 1), DigitAt(t, 2);
    DivMod(v, 0x100, d0, d1 * 0x10 + d2);
    DivMod(v, 0x10, d0 * 0x10 + d1, d2);
    DivMod(d0 * 0x10 + d1, 0x10, d0, d1);
  }

  /** Six hex digits: alpha is opaque and each pair of digits is one channel. */
  lemma Hex6Channels(hex: string)
    requires |Trim(hex)| == 6 && AllHex(Trim(hex))
    ensures var t := Trim(hex);
      HexToArgb(hex) == Argb(255, DigitAt(t, 0) * 0x10 + DigitAt(t, 1),
                                  DigitAt(t, 2) * 0x10 + DigitAt(t, 3),
                                  DigitAt(t, 4) * 0x10 + DigitAt(t, 5))
  {
    var t := Trim(hex);
    ScanAllHex(t);
    HexValue6(t);
    var v := HexValue(t);
    var r, g, b := DigitAt(t, 0) * 0x10 + DigitAt(t, 1), DigitAt(t, 2) * 0x10 + DigitAt(t, 3), DigitAt(t, 4) * 0x10 + DigitAt(t, 5);
    DivMod(v, 0x1_0000, r, g * 0x100 + b);
    DivMod(v, 0x100, r * 0x100 + g, b);
    DivMod(r * 0x100 + g, 0x100, r, g);
  }

  /** Eight hex digits: the pairs of digits are alpha, red, green and blue. */
  lemma Hex8Channels(hex: string)
    requires |Trim(hex)| == 8 && AllHex(Trim(hex))
    ensures var t := Trim(hex);
      HexToArgb(hex) == Argb(DigitAt(t, 0) * 0x10 + DigitAt(t, 1),
                             DigitAt(t, 2) * 0x10 + DigitAt(t, 3),
                             DigitAt(t, 4) * 0x10 + DigitAt(t, 5),
                             DigitAt(t, 6) * 0x10 + DigitAt(t, 7))
  {
    var t := Trim(hex);
    ScanAllHex(t);
    HexValue8(t);
    var v := HexValue(t);
    var a, r := DigitAt(t, 0) * 0x10 + DigitAt(t, 1), DigitAt(t, 2) * 0x10 + DigitAt(t, 3);
    var g, b := DigitAt(t, 4) * 0x10 + DigitAt(t, 5), DigitAt(t, 6) * 0x10 + DigitAt(t, 7);
    DivMod(v, 0x100_0000, a, r * 0x1_0000 + g * 0x100 + b);
    DivMod(v, 0x1_0000, a * 0x100 + r, g * 0x100 + b);
    DivMod(a * 0x100 + r, 0x100, a, r);
    DivMod(v, 0x100, a * 0x1_0000 + r * 0x100 + g, b);
    DivMod(a * 0x1_0000 + r * 0x100 + g, 0x100, a * 0x100 + r, g);
  }

  /** A string that starts and ends with an alphanumeric character is its own trim. */
  lemma TrimKeeps(s: string)
    requires s != [] && IsAlphanumeric(s[0]) && IsAlphanumeric(s[|s| - 1])
    ensures Trim(s) == s
  {
    assert s[0..] == s;
    assert s[..|s|] == s;
  }

  /** A leading non-alphanumeric character is trimmed away. */
  lemma TrimDropsFirst(s: string)
    requires s != [] && !IsAlphanumeric(s[0])
    ensures Trim(s) == Trim(s[1..])
  {
    assert s[LeadingJunk(s)..] == s[1..][LeadingJunk(s[1..])..];
  }

  /** The app's background colour `"FADE44"` is an opaque (250, 222, 68), and
      so is `"#FADE44"`: the `#` is trimmed before the length is taken. */
  lemma AccentColour()
    ensures Trim("FADE44") == "FADE44" && Trim("#FADE44") == "FADE44"
    ensures HexToArgb("FADE44") == Argb(255, 250, 222, 68)
    ensures HexToArgb("#FADE44") == Argb(255, 250, 222, 68)
  {
    var s := "#FADE44";
    TrimDropsFirst(s);
    assert s[1..] == "FADE44";
    TrimKeeps("FADE44");
    Hex6Channels(s);
    Hex6Channels("FADE44");
  }

  // ---------------------------------------------------------------------------
  // createUploadRequest

  newtype byte = x: int | 0 <= x < 256

  /** The UTF-8 encoding of one Unicode scalar value. */
  function Utf8Char(c: char): (bs: seq<byte>)
    ensures 1 <= |bs| <= 4
    ensures c as int < 0x80 <==> |bs| == 1
    ensures c as int < 0x80 ==> bs == [c as int as byte]
  {
    var n := c as int;
    if n < 0x80 then [n as byte]
    else if n < 0x800 then [(0xC0 + n / 0x40) as byte, (0x80 + n % 0x40) as byte]
    else if n < 0x1_0000 then
      [(0xE0 + n / 0x1000) as byte, (0x80 + n / 0x40 % 0x40) as byte, (0x80 + n % 0x40) as byte]
    else
      [(0xF0 + n / 0x4_0000) as byte, (0x80 + n / 0x1000 % 0x40) as byte,
       (0x80 + n / 0x40 % 0x40) as byte, (0x80 + n % 0x40) as byte]
  }

  /** `s.data(using: .utf8)!`. */
  function Utf8(s: string): seq<byte> {
    Utf8Prefix(s, |s|)
  }

  /** The encoding of the first `n` characters of `s`. */
  function Utf8Prefix(s: string, n: nat): seq<byte>
    requires n <= |s|
  {
    if n == 0 then [] else Utf8Prefix(s, n - 1) + Utf8Char(s[n - 1])
  }

  lemma {:induction false} Utf8PrefixAppend(a: string, b: string, n: nat)
    requires n <= |b|
    ensures Utf8Prefix(a + b, |a| + n) == Utf8(a) + Utf8Prefix(b, n)
  {
    if n == 0 {
      Utf8PrefixSame(a + b, a, |a|);
    } else {
      Utf8PrefixAppend(a, b, n - 1);
      assert (a + b)[|a| + n - 1] == b[n - 1];
    }
  }

  /** The encoding of a prefix depends on that prefix only. */
  lemma {:induction false} Utf8PrefixSame(s: string, t: string, n: nat)
    requires n <= |s| && n <= |t| && s[..n] == t[..n]
    ensures Utf8Prefix(s, n) == Utf8Prefix(t, n)
  {
    if n > 0 {
      assert s[..n - 1] == s[..n][..n - 1] && t[..n - 1] == t[..n][..n - 1];
      assert s[n - 1] == s[..n][n - 1] && t[n - 1] == t[..n][n - 1];
      Utf8PrefixSame(s, t, n - 1);
    }
  }

  /** Encoding is compositional: appending strings appends their bytes. */
  lemma Utf8Append(a: string, b: string)
    ensures Utf8(a + b) == Utf8(a) + Utf8(b)
  {
    Utf8PrefixAppend(a, b, |b|);
  }

  const ServerUrl: string := "http://localhost:8000"
  const Disposition: string := "Content-Disposition: form-data; name=\"file\"; filename=\"audio.wav\"\r\n"
  const AudioType: string := "Content-Type: audio/wav\r\n\r\n"

  /** The parts of the request `createUploadRequest` builds that the model keeps. */
  datatype UploadRequest = UploadRequest(url: string, httpMethod: string, contentType: string, body: seq<byte>)

  /** The multipart boundary made from a UUID string. */
  function Boundary(uuid: string): string {
    "Boundary-" + uuid
  }

  /** Everything before the audio bytes. */
  function BodyHead(boundary: string): string {
    "--" + boundary + "\r\n" + Disposition + AudioType
  }

  /** Everything after the audio bytes. */
  function BodyTail(boundary: string): string {
    "\r\n--" + boundary + "--\r\n"
  }

  /** `createUploadRequest(with:)`, given the `UUID().uuidString` it draws and
      the audio file's bytes (`None` when the file cannot be read). */
  method CreateUploadRequest(uuid: string, audio: Option<seq<byte>>) returns (request: UploadRequest)
    ensures request.url == "http://localhost:8000/transcribe/"
    ensures request.httpMethod == "POST"
    ensures request.contentType == "multipart/form-data; boundary=Boundary-" + uuid
    ensures request.body == Utf8(BodyHead(Boundary(uuid))) + audio.GetOr([]) + Utf8(BodyTail(Boundary(uuid)))
  {
    var boundary := "Boundary-" + uuid;
    var body: seq<byte> := [];
    body := body + Utf8("--" + boundary + "\r\n");
    body := body + Utf8(Disposition);
    body := body + Utf8(AudioType);
    body := body + audio.GetOr([]);
    body := body + Utf8("\r\n--" + boundary + "--\r\n");
    Utf8Append("--" + boundary + "\r\n", Disposition);
    Utf8Append("--" + boundary + "\r\n" + Disposition, AudioType);
    request := UploadRequest(ServerUrl + "/transcribe/", "POST", "multipart/form-data; boundary=" + boundary, body);
  }

  lemma Utf8DashDash()
    ensures Utf8("--") == [45, 45]
  {
    assert Utf8Prefix("--", 1) == [45];
  }

  lemma Utf8CrLf()
    ensures Utf8("\r\n") == [13, 10]
  {
    assert Utf8Prefix("\r\n", 1) == [13];
  }

  /** A string that starts with two dashes encodes to bytes that do. */
  lemma StartsWithDashes(rest: string)
    ensures |Utf8("--" + rest)| >= 2 && Utf8("--" + rest)[..2] == [45, 45]
  {
    Utf8Append("--", rest);
    Utf8DashDash();
  }

  /** The encoded head starts with the two dashes of the boundary line. */
  lemma HeadStartsWithDashes(boundary: string)
    ensures |Utf8(BodyHead(boundary))| >= 2 && Utf8(BodyHead(boundary))[..2] == [45, 45]
  {
    var rest := boundary + "\r\n" + Disposition + AudioType;
    assert BodyHead(boundary) == "--" + rest;
    StartsWithDashes(rest);
  }

  /** The encoded tail ends with the line break after the closing boundary. */
  lemma TailEndsWithCrLf(boundary: string)
    ensures var t := Utf8(BodyTail(boundary)); |t| >= 2 && t[|t| - 2..] == [13, 10]
  {
    var front := "\r\n--" + boundary + "--";
    assert BodyTail(boundary) == front + "\r\n";
    Utf8Append(front, "\r\n");
    Utf8CrLf();
  }

  /** The body frames the audio: it starts with the boundary line and part
      headers, ends with the closing boundary, and the bytes between are
      exactly the audio (none when the file was unreadable). */
  lemma BodyFramesAudio(uuid: string, audio: Option<seq<byte>>)
    ensures var body := Utf8(BodyHead(Boundary(uuid))) + audio.GetOr([]) + Utf8(BodyTail(Boundary(uuid)));
      var head, tail := |Utf8(BodyHead(Boundary(uuid)))|, |Utf8(BodyTail(Boundary(uuid)))|;
      && |body| == head + |audio.GetOr([])| + tail
      && body[head..|body| - tail] == audio.GetOr([])
      && body[..2] == [45, 45]
      && body[|body| - 2..] == [13, 10]
  {
    var h := Utf8(BodyHead(Boundary(uuid)));
    var t := Utf8(BodyTail(Boundary(uuid)));
    var body := h + audio.GetOr([]) + t;
    assert body[|h|..|body| - |t|] == audio.GetOr([]);
    HeadStartsWithDashes(Boundary(uuid));
    TailEndsWithCrLf(Boundary(uuid));
    assert body[..2] == h[..2];
    assert body[|body| - 2..] == t[|t| - 2..];
  }
}
