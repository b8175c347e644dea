/** Reading back archives written by the standard. */
module TarRoundTrip {
  import opened Wrappers
  import opened Numerals
  import opened Text
  import opened Utf8
  import opened TarNotices

  // Each notice member is returned under its effective path, in path order.

  // ---------------------------------------------------------------- the format

  /** NUL-terminated text, or text that fills its field. */
  predicate TextField(f: seq<byte>, s: string) {
    var bs := Encode(s);
    '\0' !in s && bs <= f && (|bs| < |f| ==> f[|bs|] == 0)
  }

  /** Octal digits, then spaces and NULs. */
  predicate OctalDigits(f: seq<byte>, d: string, n: nat) {
    IsOctal(d) && ValueOf(8, d) == n && |d| <= |f|
    && f[..|d|] == Encode(d)
    && forall i :: |d| <= i < |f| ==> f[i] == 0 || f[i] == 32
  }

  ghost predicate OctalField(f: seq<byte>, n: nat) {
    exists d :: OctalDigits(f, d, n)
  }

  ghost predicate IsHeader(h: seq<byte>, prefix: string, name: string, size: nat, flag: byte) {
    |h| == BLOCK && h[156] == flag
    && TextField(h[0..100], name) && TextField(h[345..500], prefix)
    && OctalField(h[124..136], size) && OctalField(h[148..156], ByteSum(h, |h|))
  }

  /** A pax record announces its own length: "%d %s=%s\n". */
  predicate IsRecord(bs: seq<byte>, r: Record) {
    bs == Encode(Decimal(|bs|)) + [32] + Encode(r.key + "=" + r.value) + [10]
    && r.key != "" && '=' !in r.key
  }

  ghost predicate AreRecords(bs: seq<byte>, rs: seq<Record>) {
    if rs == [] then bs == []
    else exists n: nat :: n <= |bs| && IsRecord(bs[..n], rs[0]) && AreRecords(bs[n..], rs[1..])
  }

  datatype Entry =
    | Global(records: seq<Record>)
    | Extended(records: seq<Record>)
    | LongName(name: string)
    | File(prefix: string, name: string, flag: byte, data: seq<byte>)

  datatype Chunk = Chunk(header: seq<byte>, data: seq<byte>, padding: seq<byte>)

  ghost predicate Encodes(c: Chunk, e: Entry) {
    |c.data| + |c.padding| == Padded(|c.data|)
    && match e
       case Global(rs) => TypeIs(c, 'g' as int) && AreRecords(c.data, rs)
       case Extended(rs) => TypeIs(c, 'x' as int) && AreRecords(c.data, rs)
       case LongName(name) => TypeIs(c, 'L' as int) && '\0' !in name && c.data == Encode(name) + [0]
       case File(prefix, name, flag, data) =>
         c.data == data && flag !in ['g' as int, 'x' as int, 'L' as int]
         && IsHeader(c.header, prefix, name, |data|, flag) && Unmarked(prefix) && Unmarked(name)
  }

  ghost predicate TypeIs(c: Chunk, flag: byte) {
    exists prefix, name :: IsHeader(c.header, prefix, name, |c.data|, flag) && Unmarked(prefix) && Unmarked(name)
  }

  /** `TextDecoder` swallows a leading byte order mark. */
  predicate Unmarked(s: string) {
    s == "" || s[0] != BOM
  }

  /** The strings the reader's decoder and `trimEnd` leave alone. */
  predicate Faithful(e: Entry) {
    match e
    case Global(rs) => forall r :: r in rs ==> Unmarked(r.key)
    case Extended(rs) => forall r :: r in rs ==> Unmarked(r.key)
    case LongName(name) => Unmarked(name) && TrimEnd(name) == name
    case File(_, _, _, _) => true
  }

  function Flatten(chunks: seq<Chunk>): seq<byte> {
    if chunks == [] then []
    else chunks[0].header + chunks[0].data + chunks[0].padding + Flatten(chunks[1..])
  }

  predicate Terminator(tail: seq<byte>) {
    |tail| >= BLOCK && Zeros(tail[..BLOCK])
  }

  // ---------------------------------------------------------------- effective paths

  function LastPath(rs: seq<Record>): Option<string> {
    if rs == [] then None
    else if rs[|rs| - 1].key == "path" then Some(rs[|rs| - 1].value)
    else LastPath(rs[..|rs| - 1])
  }

  /** Path of the nearest `x` header since the preceding file. */
  function PaxBefore(es: seq<Entry>, i: nat): Option<string>
    requires i <= |es|
  {
    if i == 0 || es[i - 1].File? then None
    else if es[i - 1].Extended? then LastPath(es[i - 1].records)
    else PaxBefore(es, i - 1)
  }

  function LongBefore(es: seq<Entry>, i: nat): Option<string>
    requires i <= |es|
  {
    if i == 0 || es[i - 1].File? then None
    else if es[i - 1].LongName? then Some(es[i - 1].name)
    else LongBefore(es, i - 1)
  }

  /** Path of the nearest `g` header that has one, over the whole archive so far. */
  function GlobalBefore(es: seq<Entry>, i: nat): Option<string>
    requires i <= |es|
  {
    if i == 0 then None
    else if es[i - 1].Global? && LastPath(es[i - 1].records).Some? then LastPath(es[i - 1].records)
    else GlobalBefore(es, i - 1)
  }

  function EffectivePath(es: seq<Entry>, i: nat): string
    requires i < |es| && es[i].File?
  {
    if PaxBefore(es, i).Some? then PaxBefore(es, i).value
    else if LongBefore(es, i).Some? then LongBefore(es, i).value
    else if GlobalBefore(es, i).Some? then GlobalBefore(es, i).value
    else HeaderPath(es[i].prefix, es[i].name)
  }

  predicate IsNotice(notice: string -> bool, es: seq<Entry>, i: nat)
    requires i < |es|
  {
    es[i].File? && notice(EffectivePath(es, i))
  }

  predicate Readable(e: Entry)
    requires e.File?
  {
    (e.flag == 0 || e.flag == '0' as int) && DecodeText(e.data).Some?
  }

  /** The notices from entry `i` on, in archive order. */
  function Notices(notice: string -> bool, es: seq<Entry>, i: nat): (r: seq<Member>)
    requires i <= |es|
    requires forall k :: i <= k < |es| && IsNotice(notice, es, k) ==> Readable(es[k])
    decreases |es| - i
  {
    if i == |es| then []
    else
      var rest := Notices(notice, es, i + 1);
      if IsNotice(notice, es, i) then
        assert Readable(es[i]);
        [Member(EffectivePath(es, i), |es[i].data|, DecodeText(es[i].data).value)] + rest
      else rest
  }

  // ---------------------------------------------------------------- fields

  lemma {:induction false} IndexOfSplit<T>(s: seq<T>, k: nat, x: T)
    requires k <= |s| && x !in s[..k] && (k < |s| ==> s[k] == x)
    ensures IndexOf(s, x) == k
  {
    if k > 0 {
      assert s[0] == s[..k][0] && s[1..][..k - 1] == s[..k][1..];
      IndexOfSplit(s[1..], k - 1, x);
    }
  }

  lemma {:induction false} EncodeAvoids(s: string, c: char)
    requires c !in s && c as int < 0x80
    ensures c as int !in Encode(s)
  {
    if s != "" {
      assert s[0] in s;
      EncodeAvoids(s[1..], c);
      assert c as int !in EncodeChar(s[0]);
    }
  }

  lemma ReadText(f: seq<byte>, s: string)
    requires TextField(f, s) && Unmarked(s)
    ensures TarString(f) == Some(s)
  {
    var bs := Encode(s);
    EncodeAvoids(s, '\0');
    assert f[..|bs|] == bs;
    IndexOfSplit(f, |bs|, 0);
    DecodeTextEncode(s);
  }

  lemma AsciiBytes(s: string)
    requires IsAscii(s)
    ensures |Encode(s)| == |s| && forall i :: 0 <= i < |s| ==> Encode(s)[i] == s[i] as int
  {
    EncodeAscii(s);
  }

  lemma {:induction false} TrimEndSpaces(d: string, s: string)
    requires d <= s && (forall i :: |d| <= i < |s| ==> s[i] == ' ') && TrimEnd(d) == d
    ensures TrimEnd(s) == d
  {
    if |d| < |s| {
      TrimEndSpaces(d, s[..|s| - 1]);
    } else {
      assert s == d;
    }
  }

  lemma {:induction false} OctalBound(d: string, bound: nat)
    requires IsOctal(d) || d == ""
    requires bound == Power8(|d|)
    ensures 0 <= ValueOf(8, d) < bound
  {
    if d != "" {
      OctalBound(d[..|d| - 1], Power8(|d| - 1));
    }
  }

  function Power8(n: nat): nat {
    if n == 0 then 1 else 8 * Power8(n - 1)
  }

  lemma Power8Grows(n: nat, m: nat)
    requires n <= m
    ensures Power8(n) <= Power8(m)
    decreases m
  {
    if n < m { Power8Grows(n, m - 1); }
  }

  /** Before its first NUL the field holds the digits and some spaces. */
  lemma OctalText(f: seq<byte>, d: string, n: nat) returns (s: string)
    requires OctalDigits(f, d, n)
    ensures TarString(f) == Some(s) && d <= s && forall i :: |d| <= i < |s| ==> s[i] == ' '
  {
    hide ValueOf, Encode;
    AsciiBytes(d);
    var k := IndexOf(f, 0);
    var text := f[..k];
    assert forall i :: 0 <= i < |d| ==> f[i] == f[..|d|][i] == d[i] as int;
    assert |d| <= k;
    assert forall i :: |d| <= i < k ==> f[i] == text[i] != 0;
    s := d + seq(k - |d|, _ => ' ');
    AsciiBytes(s);
    assert Encode(s) == text;
    DecodeTextEncode(s);
  }

  lemma ReadOctal(f: seq<byte>, n: nat)
    requires OctalField(f, n) && |f| <= 12
    ensures TarOctal(f) == Ok(n)
  {
    hide TarString, Encode, ValueOf, Power8;
    var d :| OctalDigits(f, d, n);
    var s := OctalText(f, d, n);
    assert !IsSpace(d[|d| - 1]) && !IsSpace(s[0]) by { assert s[0] == d[0]; }
    TrimEndSpaces(d, s);
    OctalBound(d, Power8(|d|));
    Power8Grows(|d|, 12);
    Power8Twelve();
  }

  lemma Power8Twelve()
    ensures Power8(12) == 68719476736
  {
  }

  lemma HeaderRead(h: seq<byte>, prefix: string, name: string, size: nat, flag: byte)
    requires IsHeader(h, prefix, name, size, flag) && Unmarked(prefix) && Unmarked(name)
    ensures ReadHeader(h) == Ok(Header(HeaderPath(prefix, name), size, flag))
    ensures !Zeros(h)
  {
    hide TarString, TarOctal, ByteSum;
    ReadText(h[0..100], name);
    ReadText(h[345..500], prefix);
    ReadOctal(h[124..136], size);
    ReadOctal(h[148..156], ByteSum(h, |h|));
    var f := h[148..156];
    var d :| OctalDigits(f, d, ByteSum(h, |h|));
    AsciiBytes(d);
    assert f[..|d|][0] == d[0] as int != 0;
    assert h[148] == f[0];
  }

  // ---------------------------------------------------------------- headers exist

  function OctalOf(n: nat, width: nat): string {
    if width == 0 then "" else OctalOf(n / 8, width - 1) + [('0' as int + n % 8) as char]
  }

  lemma {:induction false} OctalOfValue(n: nat, width: nat)
    requires n < Power8(width)
    ensures |OctalOf(n, width)| == width && ValueOf(8, OctalOf(n, width)) == n
    ensures forall i :: 0 <= i < width ==> '0' <= OctalOf(n, width)[i] <= '7'
    decreases width
  {
    if width > 0 {
      OctalOfValue(n / 8, width - 1);
      var s := OctalOf(n, width);
      assert s[..width - 1] == OctalOf(n / 8, width - 1);
    }
  }

  function Padding(n: nat): seq<byte> {
    seq(n, _ => 0)
  }

  /** Octal digits that fill their field up to one NUL. */
  lemma NumberField(n: nat, width: nat) returns (f: seq<byte>)
    requires width > 0 && n < Power8(width)
    ensures |f| == width + 1 && OctalField(f, n)
  {
    var d := OctalOf(n, width);
    OctalOfValue(n, width);
    AsciiBytes(d);
    f := Encode(d) + [0];
    assert OctalDigits(f, d, n);
  }

  lemma {:induction false} SumIgnoresChecksum(h: seq<byte>, g: seq<byte>, k: nat)
    requires |h| == |g| && k <= |h| && forall i :: 0 <= i < |h| && !(148 <= i < 156) ==> h[i] == g[i]
    ensures ByteSum(h, k) == ByteSum(g, k) <= 255 * k
  {
    if k > 0 { SumIgnoresChecksum(h, g, k - 1); }
  }

  /** Every name and size that fits has a header; its checksum does not disturb its own sum. */
  lemma HeaderExists(prefix: string, name: string, size: nat, flag: byte) returns (h: seq<byte>)
    requires |Encode(name)| <= 100 && |Encode(prefix)| <= 155 && '\0' !in name && '\0' !in prefix
    requires size < Power8(11)
    ensures IsHeader(h, prefix, name, size, flag)
  {
    hide ByteSum, Power8, OctalField, Encode;
    var n, p := Encode(name) + Padding(100 - |Encode(name)|), Encode(prefix) + Padding(155 - |Encode(prefix)|);
    var z := NumberField(size, 11);
    var front, back := n + Padding(24) + z + Padding(12), [flag] + Padding(188) + p + Padding(12);
    var blank := front + Padding(8) + back;
    SumIgnoresChecksum(blank, blank, |blank|);
    var sum := ByteSum(blank, |blank|);
    assert Power8(7) == 2097152 by { Power8Seven(); }
    var c := NumberField(sum, 7);
    h := front + c + back;
    SumIgnoresChecksum(blank, h, |h|);
    assert h[0..100] == n && h[124..136] == z && h[148..156] == c && h[345..500] == p && h[156] == flag;
    assert Encode(name) <= n && Encode(prefix) <= p;
  }

  lemma Power8Seven()
    ensures Power8(7) == 2097152
  {
  }

  // ---------------------------------------------------------------- pax records

  lemma LengthText(n: nat)
    requires n > 0
    ensures IsAscii(Decimal(n)) && IsRecordLength(Decimal(n)) && 32 !in Encode(Decimal(n))
    ensures ValueOf(10, Decimal(n)) == n
  {
    DecimalReads(n);
    DecimalNonEmpty(n);
    assert forall i :: 0 <= i < |Decimal(n)| ==> IsDigit(Decimal(n)[i]) && Decimal(n)[i] != ' ';
    EncodeAvoids(Decimal(n), ' ');
  }

  lemma KeyValue(r: Record)
    requires r.key != "" && '=' !in r.key
    ensures var text := r.key + "=" + r.value;
            IndexOf(text, '=') == |r.key| && text[..|r.key|] == r.key && text[|r.key| + 1..] == r.value
  {
    var text := r.key + "=" + r.value;
    assert text[..|r.key|] == r.key;
    IndexOfSplit(text, |r.key|, '=');
  }

  lemma RecordRead(bs: seq<byte>, n: nat, r: Record)
    requires n <= |bs| <= MAX_SAFE && IsRecord(bs[..n], r) && Unmarked(r.key)
    ensures bs != [] && FirstRecord(bs) == Ok((n, r))
  {
    hide Decode, ValueOf, Encode;
    var length, text := Decimal(n), r.key + "=" + r.value;
    var a, b := Encode(length), Encode(text);
    assert bs[..n] == a + [32] + b + [10];
    LengthText(n);
    DecodeTextEncode(length);
    var k := |a|;
    assert bs[k] == bs[..n][k] == 32 && bs[..k] == bs[..n][..k] == a;
    IndexOfSplit(bs, k, 32);
    assert bs[n - 1] == bs[..n][n - 1] == 10;
    assert bs[k + 1..n - 1] == bs[..n][k + 1..n - 1] == b;
    DecodeTextEncode(text);
    assert text[0] == r.key[0];
    assert DecodeText(bs[..k]) == Some(length);
    KeyValue(r);
  }

  lemma {:induction false} LastPathFront(rs: seq<Record>)
    requires rs != []
    ensures LastPath(rs) == Or(LastPath(rs[1..]), if rs[0].key == "path" then Some(rs[0].value) else None)
  {
    var n := |rs| - 1;
    if n > 0 {
      LastPathFront(rs[..n]);
      assert rs[..n][1..] == rs[1..][..n - 1];
    }
  }

  /** Reading back the records gives the last `path` among them. */
  lemma {:induction false} RecordsRead(bs: seq<byte>, rs: seq<Record>, path: Option<string>)
    requires AreRecords(bs, rs) && |bs| <= MAX_SAFE
    requires forall r :: r in rs ==> Unmarked(r.key)
    ensures PaxFrom(bs, path) == Ok(Or(LastPath(rs), path))
    decreases rs
  {
    hide FirstRecord, IsRecord;
    if rs != [] {
      var n: nat :| n <= |bs| && IsRecord(bs[..n], rs[0]) && AreRecords(bs[n..], rs[1..]);
      RecordRead(bs, n, rs[0]);
      LastPathFront(rs);
      RecordsRead(bs[n..], rs[1..], if rs[0].key == "path" then Some(rs[0].value) else path);
    }
  }

  /** Every key and value has a record: a total length that counts its own digits exists. */
  lemma RecordExists(r: Record) returns (bs: seq<byte>)
    requires r.key != "" && '=' !in r.key
    ensures IsRecord(bs, r)
  {
    var body := [32] + Encode(r.key + "=" + r.value) + [10];
    var d: nat := 1;
    DecimalNonEmpty(|body| + d);
    while |Decimal(|body| + d)| != d
      invariant 1 <= d <= |Decimal(|body| + d)|
      decreases |body| + 2 - d
    {
      DecimalLengthGrows(|body| + d, |body| + d + 1);
      DecimalLengthBound(|body| + d);
      d := d + 1;
    }
    var length := Decimal(|body| + d);
    LengthText(|body| + d);
    AsciiBytes(length);
    bs := Encode(length) + body;
    assert |bs| == |body| + d;
    assert bs == Encode(length) + [32] + Encode(r.key + "=" + r.value) + [10];
  }

  // ---------------------------------------------------------------- members

  lemma LongNameRead(name: string)
    requires '\0' !in name && Unmarked(name) && TrimEnd(name) == name
    ensures LongPath(Encode(name) + [0]) == Some(name)
  {
    var s := name + "\0";
    EncodeAppend(name, "\0");
    assert Encode("\0") == [0] by { EncodeAscii("\0"); }
    DecodeTextEncode(s);
    assert s[..|name|] == name;
    IndexOfSplit(s, |name|, '\0');
  }

  function PendingAt(es: seq<Entry>, i: nat): Pending
    requires i <= |es|
  {
    Pending(LongBefore(es, i), PaxBefore(es, i), GlobalBefore(es, i))
  }

  ghost predicate Conforms(es: seq<Entry>, chunks: seq<Chunk>) {
    |chunks| == |es|
    && forall i :: 0 <= i < |es| ==> Encodes(chunks[i], es[i]) && Faithful(es[i]) && |chunks[i].data| <= MAX_SAFE
  }

  /** What the reader is to produce from entry `i` on: the first bad notice, or all notices. */
  function Expected(notice: string -> bool, es: seq<Entry>, i: nat): (r: Result<seq<Member>>)
    requires i <= |es|
    ensures r.Ok? <==> forall k :: i <= k < |es| && IsNotice(notice, es, k) ==> Readable(es[k])
    ensures r.Ok? ==> r.value == Notices(notice, es, i)
    decreases |es| - i
  {
    if i == |es| then Ok([])
    else if !IsNotice(notice, es, i) then Expected(notice, es, i + 1)
    else if es[i].flag != 0 && es[i].flag != '0' as int then Err(NotRegular(EffectivePath(es, i)))
    else if DecodeText(es[i].data).None? then Err(BadText)
    else
      Prepend([Member(EffectivePath(es, i), |es[i].data|, DecodeText(es[i].data).value)],
              Expected(notice, es, i + 1))
  }

  ghost predicate OneHeader(c: Chunk, e: Entry, h: Header) {
    |c.header| == BLOCK && !Zeros(c.header) && ReadHeader(c.header) == Ok(h) && h.size == |c.data|
    && match e
       case Global(_) => h.flag == 'g' as int
       case Extended(_) => h.flag == 'x' as int
       case LongName(_) => h.flag == 'L' as int
       case File(prefix, name, flag, _) => h.flag == flag && h.path == HeaderPath(prefix, name)
  }

  lemma ChunkHeader(c: Chunk, e: Entry) returns (h: Header)
    requires Encodes(c, e)
    ensures OneHeader(c, e, h)
  {
    hide Zeros, ReadHeader;
    var prefix, name, flag;
    if e.File? {
      prefix, name, flag := e.prefix, e.name, e.flag;
    } else {
      flag := if e.Global? then 'g' as int else if e.Extended? then 'x' as int else 'L' as int;
      assert TypeIs(c, flag);
      prefix, name :| IsHeader(c.header, prefix, name, |c.data|, flag) && Unmarked(prefix) && Unmarked(name);
    }
    HeaderRead(c.header, prefix, name, |c.data|, flag);
    h := Header(HeaderPath(prefix, name), |c.data|, flag);
  }

  /** One member turns the pending paths before it into those before the next entry. */
  lemma StepRead(notice: string -> bool, es: seq<Entry>, i: nat, c: Chunk, h: Header)
    requires i < |es| && Encodes(c, es[i]) && Faithful(es[i]) && OneHeader(c, es[i], h) && |c.data| <= MAX_SAFE
    ensures var r := Step(notice, PendingAt(es, i), h, c.data);
            if !IsNotice(notice, es, i) then r == Ok((PendingAt(es, i + 1), []))
            else if es[i].flag != 0 && es[i].flag != '0' as int then r == Err(NotRegular(EffectivePath(es, i)))
            else if DecodeText(c.data).None? then r == Err(BadText)
            else r == Ok((PendingAt(es, i + 1),
                          [Member(EffectivePath(es, i), |c.data|, DecodeText(c.data).value)]))
  {
    hide DecodeText, AreRecords, PaxFrom, LongPath, IsHeader;
    match es[i]
    case Global(rs) => RecordsRead(c.data, rs, None);
    case Extended(rs) => RecordsRead(c.data, rs, None);
    case LongName(name) => LongNameRead(name);
    case File(_, _, _, _) =>
  }

  lemma {:induction false} ReadAll(notice: string -> bool, es: seq<Entry>, chunks: seq<Chunk>, tail: seq<byte>, i: nat)
    requires Conforms(es, chunks) && Terminator(tail) && i <= |es|
    ensures Collect(notice, Flatten(chunks[i..]) + tail, PendingAt(es, i)) == Expected(notice, es, i)
    decreases |es| - i
  {
    hide Zeros, ReadHeader, Step, Encodes, Faithful, EffectivePath, Notices, PendingAt, DecodeText, Padded;
    if i == |es| {
      assert Flatten([]) + tail == tail;
    } else {
      var c, rest := chunks[i], Flatten(chunks[i + 1..]) + tail;
      var h := ChunkHeader(c, es[i]);
      PaddedChunk(c, es[i]);
      assert chunks[i..][1..] == chunks[i + 1..];
      var bs := c.header + c.data + c.padding + rest;
      assert Flatten(chunks[i..]) + tail == bs;
      assert bs[..BLOCK] == c.header && bs[BLOCK..BLOCK + h.size] == c.data;
      assert bs[BLOCK + Padded(h.size)..] == rest;
      StepRead(notice, es, i, c, h);
      ReadAll(notice, es, chunks, tail, i + 1);
      assert forall more: seq<Member> :: [] + more == more;
      FileData(c, es[i]);
      assert |bs| >= BLOCK && !Zeros(bs[..BLOCK]);
      var r := Step(notice, PendingAt(es, i), h, c.data);
      assert r.Ok? ==> Collect(notice, bs, PendingAt(es, i)) == Prepend(r.value.1, Collect(notice, rest, r.value.0));
      assert r.Err? ==> Collect(notice, bs, PendingAt(es, i)) == Err(r.error);
    }
  }

  lemma PaddedChunk(c: Chunk, e: Entry)
    requires Encodes(c, e)
    ensures |c.data| + |c.padding| == Padded(|c.data|)
  {
  }

  lemma FileData(c: Chunk, e: Entry)
    requires Encodes(c, e)
    ensures e.File? ==> c.data == e.data
  {
  }

  /**
   * Reading an archive written by the standard: it succeeds exactly when every notice is a readable
   * regular file and no effective path repeats, and then gives precisely the notices, by path.
   */
  lemma RoundTrip(notice: string -> bool, es: seq<Entry>, chunks: seq<Chunk>, tail: seq<byte>, r: Result<seq<Member>>)
    requires Conforms(es, chunks) && Terminator(tail)
    requires IsResult(notice, Flatten(chunks) + tail, r)
    ensures r.Ok? <==> (forall k :: 0 <= k < |es| && IsNotice(notice, es, k) ==> Readable(es[k]))
                       && Distinct(Notices(notice, es, 0))
    ensures r.Ok? ==> Ascending(r.value) && multiset(r.value) == multiset(Notices(notice, es, 0))
  {
    ReadAll(notice, es, chunks, tail, 0);
    assert chunks[0..] == chunks && PendingAt(es, 0) == NOTHING;
  }
}
