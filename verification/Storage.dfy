/** Object storage: parts saved under their numbers and assembled into one object, on the file
    system and on an S3-compatible service. */
module Storage {
  import opened Wrappers
  import opened Text

  newtype byte = x: int | 0 <= x < 256
  type Bytes = seq<byte>
  type Files = map<string, Bytes>

  // ---------------------------------------------------------------- paths

  function Digit(d: nat): char
    requires d < 10
  {
    '0' + d as char
  }

  function Digits(n: nat): string {
    if n < 10 then [Digit(n)] else Digits(n / 10) + [Digit(n % 10)]
  }

  function Padded(s: string, width: nat): string
    decreases width - |s|
  {
    if |s| >= width then s else Padded("0" + s, width)
  }

  /** `{n:06d}`; the sign takes one of the six places. */
  function Number(n: int): string {
    if n < 0 then "-" + Padded(Digits(-n), 5) else Padded(Digits(n), 6)
  }

  function PartPath(upload: string, n: int): string {
    "_parts/" + upload + "/" + Number(n) + ".part"
  }

  /** `build_path`. */
  function BuildPath(workspace: string, document: string, filename: string): string {
    "workspaces/" + workspace + "/raw/" + document + "/" + filename
  }

  predicate IsDigits(s: string) {
    forall i | 0 <= i < |s| :: '0' <= s[i] <= '9'
  }

  /** The number a digit string denotes. */
  function Value(s: string): nat
    requires IsDigits(s)
    decreases |s|
  {
    if s == "" then 0 else 10 * Value(s[..|s| - 1]) + (s[|s| - 1] - '0') as nat
  }

  lemma {:induction false} DigitsDenote(n: nat)
    ensures IsDigits(Digits(n)) && Value(Digits(n)) == n && Digits(n) != ""
  {
    if n < 10 { assert Digits(n)[..0] == ""; }
    else {
      DigitsDenote(n / 10);
      assert Digits(n)[..|Digits(n)| - 1] == Digits(n / 10);
    }
  }

  lemma {:induction false} LeadingZero(s: string)
    requires IsDigits(s)
    ensures IsDigits("0" + s) && Value("0" + s) == Value(s)
    decreases |s|
  {
    var z := "0" + s;
    if s == "" { assert z[..0] == ""; }
    else {
      LeadingZero(s[..|s| - 1]);
      assert z[..|z| - 1] == "0" + s[..|s| - 1];
    }
  }

  lemma {:induction false} PaddingKeepsValue(s: string, width: nat)
    requires IsDigits(s) && s != ""
    ensures IsDigits(Padded(s, width)) && Value(Padded(s, width)) == Value(s) && Padded(s, width) != ""
    decreases width - |s|
  {
    if |s| < width { LeadingZero(s); PaddingKeepsValue("0" + s, width); }
  }

  lemma NumberIsInjective(n: int, m: int)
    requires Number(n) == Number(m)
    ensures n == m
  {
    NumberShape(n);
    NumberShape(m);
  }

  lemma NumberShape(n: int)
    ensures Number(n) != "" && '/' !in Number(n) && (n < 0 <==> Number(n)[0] == '-')
    ensures n < 0 ==> IsDigits(Number(n)[1..]) && Value(Number(n)[1..]) == -n
    ensures n >= 0 ==> IsDigits(Number(n)) && Value(Number(n)) == n
  {
    if n < 0 {
      DigitsDenote(-n);
      PaddingKeepsValue(Digits(-n), 5);
      assert Number(n)[1..] == Padded(Digits(-n), 5);
    } else {
      DigitsDenote(n);
      PaddingKeepsValue(Digits(n), 6);
    }
  }

  lemma SlashIsNoLater(u: string, a: string, v: string, b: string)
    requires u + "/" + a == v + "/" + b && '/' !in a
    ensures |v| <= |u|
  {
    var s := u + "/" + a;
    assert s == v + "/" + b && s[|v|] == '/';
    assert forall i | |u| < i < |s| :: s[i] == a[i - |u| - 1] && s[i] != '/';
  }

  lemma LastSlash(u: string, a: string, v: string, b: string)
    requires u + "/" + a == v + "/" + b && '/' !in a && '/' !in b
    ensures u == v && a == b
  {
    SlashIsNoLater(u, a, v, b);
    SlashIsNoLater(v, b, u, a);
    var s := u + "/" + a;
    assert u == s[..|u|] && a == s[|u| + 1..];
    assert v == s[..|u|] && b == s[|u| + 1..];
  }

  /** Different parts have different paths, whatever the upload is called. */
  lemma PartPathIsInjective(u: string, n: int, v: string, m: int)
    requires PartPath(u, n) == PartPath(v, m)
    ensures u == v && n == m
  {
    NumberShape(n);
    NumberShape(m);
    var s := PartPath(u, n);
    assert s[7..|s| - 5] == u + "/" + Number(n);
    assert s[7..|s| - 5] == v + "/" + Number(m);
    LastSlash(u, Number(n), v, Number(m));
    NumberIsInjective(n, m);
  }

  ghost predicate NoPart(path: string) {
    forall u: string, n: int :: path != PartPath(u, n)
  }

  /** No part that is to be assembled lies at this path. */
  ghost predicate NoneOf(upload: string, partCount: int, path: string) {
    forall n: int | 1 <= n <= partCount :: path != PartPath(upload, n)
  }

  /** Documents and parts do not share paths. */
  lemma BuiltPathIsNoPart(workspace: string, document: string, filename: string)
    ensures NoPart(BuildPath(workspace, document, filename))
  {
    forall u: string, n: int ensures BuildPath(workspace, document, filename) != PartPath(u, n) {
      assert PartPath(u, n)[0] == '_' && BuildPath(workspace, document, filename)[0] == 'w';
    }
  }

  lemma FirstSlash(a: string, x: string, b: string, y: string)
    requires a + "/" + x == b + "/" + y && '/' !in a && '/' !in b
    ensures a == b && x == y
  {
    var s := a + "/" + x;
    assert s == b + "/" + y && s[|a|] == '/' && s[|b|] == '/';
    assert forall i | 0 <= i < |a| :: s[i] == a[i] && s[i] != '/';
    assert forall i | 0 <= i < |b| :: s[i] == b[i] && s[i] != '/';
    assert a == s[..|a|] && b == s[..|b|] && x == s[|a| + 1..] && y == s[|b| + 1..];
  }

  /** Different documents have different paths, whatever the files are called. */
  lemma BuildPathIsInjective(w: string, d: string, f: string, w': string, d': string, f': string)
    requires '/' !in w && '/' !in d && '/' !in w' && '/' !in d'
    requires BuildPath(w, d, f) == BuildPath(w', d', f')
    ensures w == w' && d == d' && f == f'
  {
    var s := BuildPath(w, d, f);
    assert s[11..] == w + "/" + ("raw/" + d + "/" + f) && s[11..] == w' + "/" + ("raw/" + d' + "/" + f');
    FirstSlash(w, "raw/" + d + "/" + f, w', "raw/" + d' + "/" + f');
    var rest := "raw/" + d + "/" + f;
    assert rest[4..] == d + "/" + f && rest[4..] == d' + "/" + f';
    FirstSlash(d, f, d', f');
  }

  lemma SevenPadded()
    ensures Padded("7", 6) == "000007"
  {
    assert "0" + "7" == "07" && "0" + "07" == "007" && "0" + "007" == "0007";
    assert "0" + "0007" == "00007" && "0" + "00007" == "000007";
    assert Padded("7", 6) == Padded("007", 6) == Padded("00007", 6);
  }

  /** Where things lie. */
  lemma PathsAre()
    ensures PartPath("up", 7) == "_parts/up/000007.part" && BuildPath("w", "d", "a.txt") == "workspaces/w/raw/d/a.txt"
  {
    SevenPadded();
    assert Number(7) == "000007";
  }

  // ---------------------------------------------------------------- assembly

  /** How many of the parts 1..count are there without a gap. */
  function Ready(files: Files, upload: string, count: nat): (k: nat)
    ensures k <= count
  {
    if count == 0 then 0
    else
      var k := Ready(files, upload, count - 1);
      if k == count - 1 && PartPath(upload, count) in files then count else k
  }

  /** Parts 1..n in order. */
  function Parts(files: Files, upload: string, n: nat): Bytes
    requires Ready(files, upload, n) == n
  {
    if n == 0 then []
    else
      ReadyIs(files, upload, n);
      ReadyIs(files, upload, n - 1);
      Parts(files, upload, n - 1) + files[PartPath(upload, n)]
  }

  lemma {:induction false} ReadyIs(files: Files, upload: string, count: nat)
    ensures var k := Ready(files, upload, count);
            && (forall n: nat | 1 <= n <= k :: PartPath(upload, n) in files)
            && (k < count ==> PartPath(upload, k + 1) !in files) && Ready(files, upload, k) == k
  {
    if count > 0 { ReadyIs(files, upload, count - 1); }
  }

  function Count(partCount: int): nat {
    if partCount < 0 then 0 else partCount
  }

  /** The file system after `complete_multipart`: the object holds the parts up to the first gap. */
  function LocalAfter(files: Files, upload: string, final: string, partCount: int): Files {
    ReadyIs(files, upload, Count(partCount));
    files[final := Parts(files, upload, Ready(files, upload, Count(partCount)))]
  }

  /** The bucket after it: a gap leaves it alone. */
  function S3After(files: Files, upload: string, final: string, partCount: int): Files {
    if Ready(files, upload, Count(partCount)) == Count(partCount) then
      files[final := Parts(files, upload, Count(partCount))]
    else files
  }

  /** The two stores agree exactly if no part is missing, or the object already held what the file
      system leaves there: with a part missing the one leaves a truncated object and the other
      nothing new. */
  lemma StoresAgreeIff(files: Files, upload: string, final: string, partCount: int)
    ensures var n := Count(partCount);
            var k := Ready(files, upload, n);
            LocalAfter(files, upload, final, partCount) == S3After(files, upload, final, partCount) <==>
            k == n || (final in files && Ready(files, upload, k) == k && files[final] == Parts(files, upload, k))
  {
    ReadyIs(files, upload, Count(partCount));
    var local := LocalAfter(files, upload, final, partCount);
    assert final in local;
    if final in files && files[final] == local[final] { assert local == files; }
  }

  /** An object that exists and its only part missing: the file system ends with an empty object, the
      bucket with the old one. */
  lemma GapSeparates()
    ensures var files: Files := map["doc" := [1]];
            && LocalAfter(files, "up", "doc", 1) == map["doc" := []]
            && S3After(files, "up", "doc", 1) == files
  {
    var files: Files := map["doc" := [1]];
    assert PartPath("up", 1)[0] == '_';
    assert Ready(files, "up", 1) == 0;
  }

  // ---------------------------------------------------------------- round trip

  datatype Save = Save(upload: string, number: int, data: Bytes)

  function Saved(files: Files, saves: seq<Save>): Files {
    if saves == [] then files
    else
      var s := saves[|saves| - 1];
      Saved(files, saves[..|saves| - 1])[PartPath(s.upload, s.number) := s.data]
  }

  /** The data last saved as this part. */
  function Latest(saves: seq<Save>, upload: string, number: int): Option<Bytes> {
    if saves == [] then None
    else
      var s := saves[|saves| - 1];
      if s.upload == upload && s.number == number then Some(s.data) else Latest(saves[..|saves| - 1], upload, number)
  }

  lemma {:induction false} LatestIsStored(files: Files, saves: seq<Save>, upload: string, number: int)
    requires Latest(saves, upload, number).Some?
    ensures var path := PartPath(upload, number);
            path in Saved(files, saves) && Saved(files, saves)[path] == Latest(saves, upload, number).value
    decreases |saves|
  {
    var s := saves[|saves| - 1];
    if PartPath(s.upload, s.number) == PartPath(upload, number) {
      PartPathIsInjective(s.upload, s.number, upload, number);
    } else { LatestIsStored(files, saves[..|saves| - 1], upload, number); }
  }

  predicate LastSavedAs(saves: seq<Save>, upload: string, parts: seq<Bytes>) {
    forall i: nat | i < |parts| :: Latest(saves, upload, i + 1) == Some(parts[i])
  }

  lemma FlattenSnoc(parts: seq<Bytes>, n: nat)
    requires 0 < n <= |parts|
    ensures Flatten(parts[..n]) == Flatten(parts[..n - 1]) + parts[n - 1]
  {
    assert parts[..n] == parts[..n - 1] + [parts[n - 1]];
    FlattenConcat(parts[..n - 1], [parts[n - 1]]);
    assert [parts[n - 1]][1..] == [];
  }

  lemma {:induction false} PartsAreSaved(files: Files, saves: seq<Save>, upload: string, parts: seq<Bytes>, n: nat)
    requires n <= |parts| && LastSavedAs(saves, upload, parts)
    ensures Ready(Saved(files, saves), upload, n) == n && Parts(Saved(files, saves), upload, n) == Flatten(parts[..n])
    decreases n
  {
    if n > 0 {
      PartsAreSaved(files, saves, upload, parts, n - 1);
      assert Latest(saves, upload, (n - 1) + 1) == Some(parts[n - 1]);
      LatestIsStored(files, saves, upload, n);
      FlattenSnoc(parts, n);
    } else {
      assert parts[..0] == [];
    }
  }

  /** Cut any bytes into parts, save them in any order, as often as need be and among the parts of
      other uploads: if the last data saved under each number is that part, both stores assemble
      the original, of the original size, and touch no other path. */
  lemma RoundTrip(files: Files, saves: seq<Save>, upload: string, parts: seq<Bytes>, final: string)
    requires LastSavedAs(saves, upload, parts)
    ensures var stored := Saved(files, saves);
            && LocalAfter(stored, upload, final, |parts|) == stored[final := Flatten(parts)]
            && S3After(stored, upload, final, |parts|) == stored[final := Flatten(parts)]
  {
    PartsAreSaved(files, saves, upload, parts, |parts|);
    assert parts[..|parts|] == parts;
  }

  // ---------------------------------------------------------------- the code

  class LocalStorage {
    var files: Files

    constructor ()
      ensures files == map[]
    {
      files := map[];
    }

    method SaveBytes(path: string, data: Bytes)
      modifies this
      ensures files == old(files)[path := data]
    {
      files := files[path := data];
    }

    /** `get_bytes`; no value stands for the raised error. */
    method GetBytes(path: string) returns (data: Option<Bytes>)
      ensures data == if path in files then Some(files[path]) else None
    {
      if path in files { data := Some(files[path]); } else { data := None; }
    }

    method Size(path: string) returns (size: Option<nat>)
      ensures size == if path in files then Some(|files[path]|) else None
    {
      if path in files { size := Some(|files[path]|); } else { size := None; }
    }

    method SavePart(upload: string, number: int, data: Bytes)
      modifies this
      ensures files == Saved(old(files), [Save(upload, number, data)])
    {
      assert [Save(upload, number, data)][..0] == [];
      files := files[PartPath(upload, number) := data];
    }

    /** Opens the object for writing, then appends part by part; false for the raised error. */
    method CompleteMultipart(upload: string, final: string, partCount: int) returns (ok: bool)
      requires NoneOf(upload, partCount, final)
      modifies this
      ensures files == LocalAfter(old(files), upload, final, partCount)
      ensures ok <==> Ready(old(files), upload, Count(partCount)) == Count(partCount)
    {
      ghost var before := files;
      files := files[final := []];
      var n: nat := 1;
      while n <= partCount
        invariant n <= Count(partCount) + 1
        invariant Ready(before, upload, n - 1) == n - 1 && files == before[final := Parts(before, upload, n - 1)]
      {
        var path := PartPath(upload, n);
        if path !in files {
          StopsAt(before, upload, n - 1, Count(partCount));
          return false;
        }
        files := files[final := files[final] + files[path]];
        n := n + 1;
      }
      ok := true;
    }

    /** The end of a multipart upload: save the part at hand, assemble, and ask for the size; no size
        stands for the raised error. */
    method FinishUpload(upload: string, part: int, total: int, data: Bytes, final: string) returns (size: Option<nat>)
      requires NoneOf(upload, total, final)
      modifies this
      ensures var stored := Saved(old(files), [Save(upload, LastNumber(part, total), data)]);
              && files == LocalAfter(stored, upload, final, total)
              && (size.Some? <==> Ready(stored, upload, Count(total)) == Count(total))
              && (size.Some? ==> size.value == |files[final]|)
      ensures total > 0 && (part == 0 || part == total) && size.Some? ==> EndsWith(files[final], data)
      ensures part != 0 && final != PartPath(upload, part) ==>
                PartPath(upload, part) in files && files[PartPath(upload, part)] == data
    {
      ghost var before := files;
      SavePart(upload, LastNumber(part, total), data);
      var ok := CompleteMultipart(upload, final, total);
      if !ok { return None; }
      if total > 0 && (part == 0 || part == total) { LastPartLast(before, upload, total, data); }
      size := Size(final);
    }
  }

  /** What was saved under the last number stands last in the object. */
  lemma {:induction false} LastPartLast(files: Files, upload: string, n: nat, data: Bytes)
    requires n > 0 && Ready(Saved(files, [Save(upload, n, data)]), upload, n) == n
    ensures var stored := Saved(files, [Save(upload, n, data)]);
            EndsWith(Parts(stored, upload, n), data)
  {
    var one := [Save(upload, n, data)];
    assert one[..0] == [];
    assert Saved(files, one)[PartPath(upload, n)] == data;
    ReadyIs(Saved(files, one), upload, n);
  }

  predicate EndsWith(all: Bytes, data: Bytes) {
    |data| <= |all| && all[|all| - |data|..] == data
  }

  /** The number the last part is saved under; none given stands for the last. */
  function LastNumber(part: int, total: int): int {
    if part == 0 then total else part
  }

  /** Once a part is missing, later ones do not count. */
  lemma {:induction false} StopsAt(files: Files, upload: string, k: nat, count: nat)
    requires k < count && Ready(files, upload, k) == k && PartPath(upload, k + 1) !in files
    ensures Ready(files, upload, count) == k
    decreases count
  {
    if count > k + 1 { StopsAt(files, upload, k, count - 1); }
  }

  class S3Storage {
    var objects: Files

    constructor ()
      ensures objects == map[]
    {
      objects := map[];
    }

    method SaveBytes(path: string, data: Bytes)
      modifies this
      ensures objects == old(objects)[path := data]
    {
      objects := objects[path := data];
    }

    method GetBytes(path: string) returns (data: Option<Bytes>)
      ensures data == if path in objects then Some(objects[path]) else None
    {
      if path in objects { data := Some(objects[path]); } else { data := None; }
    }

    method SavePart(upload: string, number: int, data: Bytes)
      modifies this
      ensures objects == Saved(old(objects), [Save(upload, number, data)])
    {
      assert [Save(upload, number, data)][..0] == [];
      objects := objects[PartPath(upload, number) := data];
    }

    /** Collects the parts in a buffer and writes the object once. */
    method CompleteMultipart(upload: string, final: string, partCount: int) returns (ok: bool)
      modifies this
      ensures objects == S3After(old(objects), upload, final, partCount)
      ensures ok <==> Ready(old(objects), upload, Count(partCount)) == Count(partCount)
    {
      var buffer: Bytes := [];
      var n: nat := 1;
      while n <= partCount
        invariant n <= Count(partCount) + 1 && objects == old(objects)
        invariant Ready(objects, upload, n - 1) == n - 1 && buffer == Parts(objects, upload, n - 1)
      {
        var part := GetBytes(PartPath(upload, n));
        if part.None? {
          StopsAt(objects, upload, n - 1, Count(partCount));
          return false;
        }
        buffer := buffer + part.value;
        n := n + 1;
      }
      SaveBytes(final, buffer);
      ok := true;
    }

    method Size(path: string) returns (size: Option<nat>)
      ensures size == if path in objects then Some(|objects[path]|) else None
    {
      if path in objects { size := Some(|objects[path]|); } else { size := None; }
    }

    method FinishUpload(upload: string, part: int, total: int, data: Bytes, final: string) returns (size: Option<nat>)
      modifies this
      ensures var stored := Saved(old(objects), [Save(upload, LastNumber(part, total), data)]);
              && objects == S3After(stored, upload, final, total)
              && (size.Some? <==> Ready(stored, upload, Count(total)) == Count(total))
              && (size.Some? ==> final in objects && size.value == |objects[final]|)
      ensures total > 0 && (part == 0 || part == total) && size.Some? ==> EndsWith(objects[final], data)
      ensures part != 0 && final != PartPath(upload, part) ==>
                PartPath(upload, part) in objects && objects[PartPath(upload, part)] == data
    {
      ghost var before := objects;
      SavePart(upload, LastNumber(part, total), data);
      var ok := CompleteMultipart(upload, final, total);
      if !ok { return None; }
      if total > 0 && (part == 0 || part == total) { LastPartLast(before, upload, total, data); }
      size := Size(final);
    }
  }
}
