/** The tar reader that collects licence notices. */
module TarNotices {
  import opened Wrappers
  import opened Numerals
  import opened Text
  import opened Utf8

  // It reads the ustar and pax interchange formats of IEEE Std 1003.1-2017 (`pax` utility) and
  // the GNU long-name member.

  datatype Error =
    | BadText | BadField | UnsafeField | BadChecksum
    | BadRecordLength | TruncatedRecord | MalformedRecord
    | TruncatedMember | NoTerminator
    | NotRegular(path: string) | Duplicate(path: string)

  datatype Result<+T> = Ok(value: T) | Err(error: Error)

  datatype Member = Member(path: string, size: nat, content: string)

  const BLOCK: nat := 512
  const MAX_SAFE: nat := 0x1F_FFFF_FFFF_FFFF

  // ---------------------------------------------------------------- fields

  function TarString(field: seq<byte>): Option<string> {
    DecodeText(field[..IndexOf(field, 0)])
  }

  predicate IsOctal(s: string) {
    s != "" && forall i :: 0 <= i < |s| ==> '0' <= s[i] <= '7'
  }

  function TarOctal(field: seq<byte>): Result<nat> {
    var text := TarString(field);
    if text.None? then Err(BadText)
    else
      var value := TrimStart(TrimEnd(text.value));
      if !IsOctal(value) then Err(BadField)
      else
        OctalIsNatural(value);
        if ValueOf(8, value) > MAX_SAFE then Err(UnsafeField) else Ok(ValueOf(8, value))
  }

  lemma {:induction false} OctalIsNatural(s: string)
    requires forall i :: 0 <= i < |s| ==> '0' <= s[i] <= '7'
    ensures ValueOf(8, s) >= 0
  {
    if s != "" { OctalIsNatural(s[..|s| - 1]); }
  }

  /** The byte sum over the first `k` header bytes, the checksum field counted as spaces. */
  function ByteSum(header: seq<byte>, k: nat): nat
    requires k <= |header|
  {
    if k == 0 then 0
    else ByteSum(header, k - 1) + if 148 <= k - 1 < 156 then 32 else header[k - 1]
  }

  method ValidateTarChecksum(header: seq<byte>) returns (r: Result<()>)
    requires |header| == BLOCK
    ensures r == CheckSum(header)
  {
    var expected := TarOctal(header[148..156]);
    if expected.Err? { return Err(expected.error); }
    var actual: nat := 0;
    var index := 0;
    while index < |header|
      invariant index <= |header|
      invariant actual == ByteSum(header, index)
    {
      actual := actual + if 148 <= index < 156 then 32 else header[index] as int;
      index := index + 1;
    }
    r := if actual != expected.value then Err(BadChecksum) else Ok(());
  }

  function CheckSum(header: seq<byte>): Result<()>
    requires |header| == BLOCK
  {
    var expected := TarOctal(header[148..156]);
    if expected.Err? then Err(expected.error)
    else if ByteSum(header, |header|) != expected.value then Err(BadChecksum)
    else Ok(())
  }

  // ---------------------------------------------------------------- pax records

  predicate IsRecordLength(s: string) {
    s != "" && s[0] != '0' && forall i :: 0 <= i < |s| ==> IsDigit(s[i])
  }

  datatype Record = Record(key: string, value: string)

  /** The record at the start of `bs` and its length. */
  function FirstRecord(bs: seq<byte>): (r: Result<(nat, Record)>)
    requires bs != []
    ensures r.Ok? ==> 0 < r.value.0 <= |bs|
  {
    var space := IndexOf(bs, 32);
    if space == |bs| then Err(BadRecordLength)
    else
      var text := DecodeText(bs[..space]);
      if text.None? then Err(BadText)
      else if !IsRecordLength(text.value) then Err(BadRecordLength)
      else
        var n := ValueOf(10, text.value);
        LengthIsPositive(text.value);
        if n > MAX_SAFE || n > |bs| || bs[n - 1] != 10 then Err(TruncatedRecord)
        else
          NewlineAfterSpace(bs, space, n);
          var record := DecodeText(bs[space + 1..n - 1]);
          if record.None? then Err(BadText)
          else
            var separator := IndexOf(record.value, '=');
            if separator == 0 || separator == |record.value| then Err(MalformedRecord)
            else Ok((n, Record(record.value[..separator], record.value[separator + 1..])))
  }

  lemma {:induction false} LengthIsPositive(s: string)
    requires IsRecordLength(s)
    ensures ValueOf(10, s) > 0
  {
    if |s| > 1 {
      LengthIsPositive(s[..|s| - 1]);
    } else {
      assert s[..0] == "";
    }
  }

  /** No byte of the length text is a newline, so a record that ends in one ends after its space. */
  lemma NewlineAfterSpace(bs: seq<byte>, space: nat, n: nat)
    requires space < |bs| && bs[space] == 32
    requires var text := DecodeText(bs[..space]); text.Some? && IsRecordLength(text.value)
    requires 0 < n <= |bs| && bs[n - 1] == 10
    ensures space + 1 <= n - 1
  {
    var head := bs[..space];
    var text := DecodeText(head).value;
    EncodeAscii(text);
    if |head| >= 3 && head[..3] == [0xEF, 0xBB, 0xBF] {
      EncodeDecode(head[3..]);
      assert forall i :: 0 <= i < space ==> head[i] == if i < 3 then head[..3][i] else head[3..][i - 3];
    } else {
      EncodeDecode(head);
    }
    assert forall i :: 0 <= i < space ==> bs[i] == head[i] && head[i] != 10;
  }

  function PaxFrom(bs: seq<byte>, path: Option<string>): Result<Option<string>> {
    if bs == [] then Ok(path)
    else
      var r := FirstRecord(bs);
      if r.Err? then Err(r.error)
      else PaxFrom(bs[r.value.0..], if r.value.1.key == "path" then Some(r.value.1.value) else path)
  }

  /** Every slice is in bounds and the offset strictly grows, whatever the bytes are. */
  method ParsePaxPath(bytes: seq<byte>) returns (r: Result<Option<string>>)
    ensures r == PaxFrom(bytes, None)
  {
    hide FirstRecord;
    var offset := 0;
    var paxPath := None;
    assert bytes[0..] == bytes;
    while offset < |bytes|
      invariant 0 <= offset <= |bytes|
      invariant PaxFrom(bytes, None) == PaxFrom(bytes[offset..], paxPath)
    {
      var r := FirstRecord(bytes[offset..]);
      if r.Err? { return Err(r.error); }
      var (recordLength, record) := r.value;
      if record.key == "path" {
        paxPath := Some(record.value);
      }
      assert bytes[offset..][recordLength..] == bytes[offset + recordLength..];
      offset := offset + recordLength;
    }
    return Ok(paxPath);
  }

  // ---------------------------------------------------------------- members

  datatype Pending = Pending(long: Option<string>, pax: Option<string>, global: Option<string>)

  const NOTHING := Pending(None, None, None)

  function Or<T>(a: Option<T>, b: Option<T>): Option<T> {
    if a.Some? then a else b
  }

  function PathOf(pending: Pending, headerPath: string): string {
    Or(Or(pending.pax, pending.long), Or(pending.global, Some(headerPath))).value
  }

  function LongPath(data: seq<byte>): Option<string> {
    var text := DecodeText(data);
    if text.None? then None else Some(TrimEnd(text.value[..IndexOf(text.value, '\0')]))
  }

  function HeaderPath(prefix: string, name: string): string {
    if prefix == "" then name else prefix + "/" + name
  }

  predicate Zeros(bs: seq<byte>) {
    forall i :: 0 <= i < |bs| ==> bs[i] == 0
  }

  datatype Header = Header(path: string, size: nat, flag: byte)

  function ReadHeader(header: seq<byte>): Result<Header>
    requires |header| == BLOCK
  {
    var ok := CheckSum(header);
    if ok.Err? then Err(ok.error)
    else
      var name, prefix := TarString(header[0..100]), TarString(header[345..500]);
      if name.None? || prefix.None? then Err(BadText)
      else
        var size := TarOctal(header[124..136]);
        if size.Err? then Err(size.error)
        else Ok(Header(HeaderPath(prefix.value, name.value), size.value, header[156]))
  }

  /** What one member does to the pending paths, and the notices it adds. */
  function Step(notice: string -> bool, pending: Pending, h: Header, data: seq<byte>)
    : Result<(Pending, seq<Member>)>
  {
    if h.flag == 'L' as int then
      var path := LongPath(data);
      if path.None? then Err(BadText) else Ok((pending.(long := path), []))
    else if h.flag == 'x' as int then
      var path := PaxFrom(data, None);
      if path.Err? then Err(path.error) else Ok((pending.(pax := path.value), []))
    else if h.flag == 'g' as int then
      var path := PaxFrom(data, None);
      if path.Err? then Err(path.error) else Ok((pending.(global := Or(path.value, pending.global)), []))
    else
      var path := PathOf(pending, h.path);
      var after := Pending(None, None, pending.global);
      if !notice(path) then Ok((after, []))
      else if h.flag != 0 && h.flag != '0' as int then Err(NotRegular(path))
      else
        var content := DecodeText(data);
        if content.None? then Err(BadText) else Ok((after, [Member(path, |data|, content.value)]))
  }

  function Padded(size: nat): (n: nat)
    ensures n >= size
  {
    (size + BLOCK - 1) / BLOCK * BLOCK
  }

  /** Members are prepended to what the rest of the archive yields; the first error wins. */
  function Prepend(ms: seq<Member>, rest: Result<seq<Member>>): Result<seq<Member>> {
    if rest.Err? then rest else Ok(ms + rest.value)
  }

  function Collect(notice: string -> bool, bs: seq<byte>, pending: Pending): Result<seq<Member>> {
    if |bs| < BLOCK then Err(NoTerminator)
    else if Zeros(bs[..BLOCK]) then Ok([])
    else
      var h := ReadHeader(bs[..BLOCK]);
      if h.Err? then Err(h.error)
      else if BLOCK + h.value.size > |bs| then Err(TruncatedMember)
      else
        var r := Step(notice, pending, h.value, bs[BLOCK..BLOCK + h.value.size]);
        var next := BLOCK + Padded(h.value.size);
        if r.Err? then Err(r.error)
        else if next > |bs| then Err(NoTerminator)
        else Prepend(r.value.1, Collect(notice, bs[next..], r.value.0))
  }

  // ---------------------------------------------------------------- order

  /**
   * JavaScript compares strings by UTF-16 code units, where a character above U+FFFF starts with a
   * surrogate and so sorts below U+E000.
   */
  function Key(c: char): int {
    var n := c as int;
    if 0xE000 <= n < 0x10000 then n + 0x110000 else n
  }

  predicate Before(a: string, b: string) {
    b != "" && (a == "" || Key(a[0]) < Key(b[0]) || (a[0] == b[0] && Before(a[1..], b[1..])))
  }

  lemma {:induction false} BeforeTotal(a: string, b: string)
    ensures a == b || Before(a, b) || Before(b, a)
    ensures !(Before(a, b) && Before(b, a)) && !Before(a, a)
  {
    if a != "" && b != "" {
      BeforeTotal(a[1..], b[1..]);
      assert a == [a[0]] + a[1..] && b == [b[0]] + b[1..];
    }
    if a != "" { BeforeTotal(a[1..], a[1..]); }
  }

  lemma {:induction false} BeforeTransitive(a: string, b: string, c: string)
    requires Before(a, b) && Before(b, c)
    ensures Before(a, c)
  {
    if a != "" && a[0] == b[0] == c[0] {
      BeforeTransitive(a[1..], b[1..], c[1..]);
    }
  }

  predicate Ascending(ms: seq<Member>) {
    forall i, j :: 0 <= i < j < |ms| ==> Before(ms[i].path, ms[j].path)
  }

  predicate Distinct(ms: seq<Member>) {
    forall i, j :: 0 <= i < j < |ms| ==> ms[i].path != ms[j].path
  }

  /** Member `j` has this path, an earlier one has it too, and no path repeats before. */
  ghost predicate FirstRepeat(ms: seq<Member>, path: string, j: nat) {
    j < |ms| && ms[j].path == path && Distinct(ms[..j]) && exists i :: 0 <= i < j && ms[i].path == path
  }

  /** The results the reader may give: the sorted notices, the first error, or the first path that repeats. */
  ghost predicate IsResult(notice: string -> bool, tarBytes: seq<byte>, r: Result<seq<Member>>) {
    var found := Collect(notice, tarBytes, NOTHING);
    match r
    case Ok(ms) => found.Ok? && Distinct(found.value) && Ascending(ms) && multiset(ms) == multiset(found.value)
    case Err(e) =>
      found == Err(e)
      || (found.Ok? && e.Duplicate? && exists j :: FirstRepeat(found.value, e.path, j))
  }

  /** The whole reader after decompression. */
  method ReadTarNoticeMembers(notice: string -> bool, tarBytes: seq<byte>) returns (r: Result<seq<Member>>)
    ensures IsResult(notice, tarBytes, r)
  {
    hide Step, ReadHeader, Zeros, Distinct, Ascending, SortByPath, Padded;
    var members := [];
    var offset := 0;
    var pending := NOTHING;
    var sawTerminator := false;
    assert tarBytes[0..] == tarBytes;
    assert forall more: seq<Member> :: [] + more == more;
    while offset + BLOCK <= |tarBytes| && !sawTerminator
      invariant 0 <= offset
      invariant offset <= |tarBytes| && !sawTerminator ==>
          Collect(notice, tarBytes, NOTHING) == Prepend(members, Collect(notice, tarBytes[offset..], pending))
      invariant offset > |tarBytes| && !sawTerminator ==> Collect(notice, tarBytes, NOTHING) == Err(NoTerminator)
      invariant sawTerminator ==> Collect(notice, tarBytes, NOTHING) == Ok(members)
      decreases !sawTerminator, |tarBytes| - offset
    {
      var rest := tarBytes[offset..];
      var header := tarBytes[offset..offset + BLOCK];
      assert header == rest[..BLOCK];
      if Zeros(header) {
        sawTerminator := true;
        assert members + [] == members;
      } else {
        var h := ReadHeader(header);
        if h.Err? { return Err(h.error); }
        var dataOffset := offset + BLOCK;
        var dataEnd := dataOffset + h.value.size;
        if dataEnd > |tarBytes| { return Err(TruncatedMember); }
        assert tarBytes[dataOffset..dataEnd] == rest[BLOCK..BLOCK + h.value.size];
        var s := Step(notice, pending, h.value, tarBytes[dataOffset..dataEnd]);
        if s.Err? { return Err(s.error); }
        var next := dataOffset + Padded(h.value.size);
        if next <= |tarBytes| {
          assert rest[next - offset..] == tarBytes[next..];
          assert forall more: seq<Member> :: members + (s.value.1 + more) == members + s.value.1 + more;
        }
        pending := s.value.0;
        members := members + s.value.1;
        offset := next;
      }
    }
    if !sawTerminator { return Err(NoTerminator); }
    var twice := FindDuplicate(members);
    if twice.Some? { return Err(Duplicate(twice.value)); }
    var sorted := SortByPath(members);
    return Ok(sorted);
  }

  method FindDuplicate(members: seq<Member>) returns (path: Option<string>)
    ensures path.None? <==> Distinct(members)
    ensures path.Some? ==> exists j :: FirstRepeat(members, path.value, j)
  {
    var seen, i := {}, 0;
    while i < |members|
      invariant 0 <= i <= |members|
      invariant Distinct(members[..i])
      invariant seen == set k | 0 <= k < i :: members[k].path
    {
      if members[i].path in seen {
        assert FirstRepeat(members, members[i].path, i);
        return Some(members[i].path);
      }
      seen := seen + {members[i].path};
      i := i + 1;
    }
    assert members[..|members|] == members;
    return None;
  }

  function SortByPath(ms: seq<Member>): (r: seq<Member>)
    requires Distinct(ms)
    ensures Ascending(r) && multiset(r) == multiset(ms)
  {
    if ms == [] then []
    else
      var n := |ms| - 1;
      var front := SortByPath(ms[..n]);
      assert ms == ms[..n] + [ms[n]];
      assert forall m :: m in front ==> m in multiset(ms[..n]) && m.path != ms[n].path;
      InsertIsPermutation(front, ms[n]);
      Insert(front, ms[n])
  }

  function Insert(ms: seq<Member>, m: Member): (r: seq<Member>)
    requires Ascending(ms) && forall x :: x in ms ==> x.path != m.path
    ensures Ascending(r) && forall x :: x in r ==> x in ms || x == m
  {
    if ms == [] then [m]
    else if Before(m.path, ms[0].path) then
      InFront(ms, m);
      [m] + ms
    else
      BeforeTotal(m.path, ms[0].path);
      var rest := Insert(ms[1..], m);
      assert forall x :: x in ms[1..] ==> Before(ms[0].path, x.path);
      assert forall k :: 0 <= k < |rest| ==> rest[k] in rest && Before(ms[0].path, rest[k].path);
      [ms[0]] + rest
  }

  lemma {:induction false} InsertIsPermutation(ms: seq<Member>, m: Member)
    requires Ascending(ms) && forall x :: x in ms ==> x.path != m.path
    ensures multiset(Insert(ms, m)) == multiset(ms) + multiset{m}
  {
    hide Before;
    if ms != [] && !Before(m.path, ms[0].path) {
      InsertIsPermutation(ms[1..], m);
      assert ms == [ms[0]] + ms[1..];
    }
  }

  lemma InFront(ms: seq<Member>, m: Member)
    requires ms != [] && Ascending(ms) && Before(m.path, ms[0].path)
    ensures Ascending([m] + ms)
  {
    forall i | 0 < i < |ms| ensures Before(m.path, ms[i].path) {
      BeforeTransitive(m.path, ms[0].path, ms[i].path);
    }
  }
}
