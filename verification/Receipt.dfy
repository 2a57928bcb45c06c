/** internal/nginx/proof.go: the byte stream a reload receipt's digest is taken over.
    The digest itself is modelled as this stream: a hash without collisions. */
module Receipt {
  import opened Wrappers
  import opened Sorting

  datatype File = File(name: string, data: string)

  const NUL: char := '\0'

  // ---- %d ----

  predicate IsDigit(c: char) { '0' <= c <= '9' }

  function Digit(d: nat): char
    requires d < 10
  {
    '0' + d as char
  }

  function Decimal(n: nat): (s: string)
    ensures s != "" && forall c | c in s :: IsDigit(c)
  {
    if n < 10 then [Digit(n)] else Decimal(n / 10) + [Digit(n % 10)]
  }

  function DecimalValue(s: string): nat
    requires forall c | c in s :: IsDigit(c)
  {
    if s == "" then 0
    else
      assert IsDigit(s[|s|-1]);
      DecimalValue(s[..|s|-1]) * 10 + (s[|s|-1] as nat - '0' as nat)
  }

  lemma {:induction false} DecimalRoundTrip(n: nat)
    ensures DecimalValue(Decimal(n)) == n
  {
    if n >= 10 {
      DecimalRoundTrip(n / 10);
      assert Decimal(n)[..|Decimal(n)|-1] == Decimal(n / 10);
    } else {
      assert DecimalValue([]) == 0;
      assert [Digit(n)][..0] == [];
    }
  }

  lemma DecimalTen()
    ensures Decimal(9) == "9" && Decimal(10) == "10" && Decimal(1203) == "1203"
  {
    assert Decimal(1) == "1" && Decimal(12) == "12" && Decimal(120) == "120";
  }

  // ---- the stream ----

  function Chunk(f: File): string { f.name + [NUL] + Decimal(|f.data|) + [NUL] + f.data }

  function Encode(files: seq<File>): string {
    if files == [] then "" else Chunk(files[0]) + Encode(files[1..])
  }

  /** Name and length of each file are followed by a NUL, its bytes by the next file. */
  lemma StreamExample()
    ensures Encode([File("a.conf", "xyz"), File("b.conf", "")]) == "a.conf\0" + "3\0xyz" + "b.conf\0" + "0\0"
  {
    assert Encode([File("b.conf", "")]) == "b.conf\0" + "0\0" + "";
    assert [File("a.conf", "xyz"), File("b.conf", "")][1..] == [File("b.conf", "")];
  }

  lemma {:induction false} EncodeSnoc(files: seq<File>, f: File)
    ensures Encode(files + [f]) == Encode(files) + Chunk(f)
  {
    hide Chunk;
    if files == [] {
      assert files + [f] == [f] && [f][1..] == [];
    } else {
      EncodeSnoc(files[1..], f);
      assert (files + [f])[1..] == files[1..] + [f];
    }
  }

  /** The text up to the first NUL, and what follows it. */
  function Field(s: string): Option<(string, string)> {
    if s == "" then None
    else if s[0] == NUL then Some(("", s[1..]))
    else match Field(s[1..])
      case None => None
      case Some((f, rest)) => Some(([s[0]] + f, rest))
  }

  lemma {:induction false} FieldShorter(s: string)
    ensures Field(s).Some? ==> |Field(s).value.1| < |s|
  {
    if s != "" && s[0] != NUL { FieldShorter(s[1..]); }
  }

  lemma {:induction false} FieldOf(f: string, rest: string)
    requires NUL !in f
    ensures Field(f + [NUL] + rest) == Some((f, rest))
  {
    var s := f + [NUL] + rest;
    if f != "" {
      FieldOf(f[1..], rest);
      assert s[1..] == f[1..] + [NUL] + rest;
      assert s[0] == f[0] != NUL;
      assert [f[0]] + f[1..] == f;
    } else {
      assert s[1..] == rest;
    }
  }

  /** Reads a stream back into the list of files it was made from. */
  function Decode(s: string): Option<seq<File>>
    decreases |s|
  {
    if s == "" then Some([])
    else match Field(s)
      case None => None
      case Some((name, s1)) =>
        match Field(s1)
        case None => None
        case Some((count, s2)) =>
          FieldShorter(s);
          FieldShorter(s1);
          if count == "" || exists c | c in count :: !IsDigit(c) then None
          else
            var n := DecimalValue(count);
            if n > |s2| then None
            else match Decode(s2[n..])
              case None => None
              case Some(rest) => Some([File(name, s2[..n])] + rest)
  }

  /** The stream determines the list of files, whatever bytes they hold. */
  lemma {:induction false} DecodeEncode(files: seq<File>)
    requires forall i | 0 <= i < |files| :: NUL !in files[i].name
    ensures Decode(Encode(files)) == Some(files)
  {
    if files != [] {
      var f, rest := files[0], Encode(files[1..]);
      DecodeEncode(files[1..]);
      var count, tail := Decimal(|f.data|), f.data + rest;
      var s := Encode(files);
      assert s == f.name + [NUL] + (count + [NUL] + tail);
      FieldOf(f.name, count + [NUL] + tail);
      assert NUL !in count by { assert !IsDigit(NUL); }
      FieldOf(count, tail);
      DecimalRoundTrip(|f.data|);
      assert tail[..|f.data|] == f.data && tail[|f.data|..] == rest;
      assert files == [File(f.name, f.data)] + files[1..];
    }
  }

  // ---- a directory ----

  /** The files of a directory in the order os.ReadDir lists them. */
  ghost function FilesOf(dir: map<string, string>): (files: seq<File>)
    ensures |files| == |dir|
  {
    var names := Listing(dir.Keys);
    seq<File>(|names|, i requires 0 <= i < |names| => File(names[i], dir[names[i]]))
  }

  ghost function DirStream(dir: map<string, string>): string { Encode(FilesOf(dir)) }

  /** Equal streams mean equal directory contents: the same names, the same bytes. */
  lemma DirStreamInjective(a: map<string, string>, b: map<string, string>)
    requires forall n | n in a || n in b :: NUL !in n
    requires DirStream(a) == DirStream(b)
    ensures a == b
  {
    SameFiles(a, b);
    DirOfFiles(a, b);
    DirOfFiles(b, a);
  }

  lemma SameFiles(a: map<string, string>, b: map<string, string>)
    requires forall n | n in a || n in b :: NUL !in n
    requires DirStream(a) == DirStream(b)
    ensures FilesOf(a) == FilesOf(b)
  {
    NulFreeFiles(a);
    NulFreeFiles(b);
  }

  lemma NulFreeFiles(dir: map<string, string>)
    requires forall n | n in dir :: NUL !in n
    ensures Decode(DirStream(dir)) == Some(FilesOf(dir))
  {
    var names := Listing(dir.Keys);
    forall i | 0 <= i < |FilesOf(dir)| ensures NUL !in FilesOf(dir)[i].name {
      assert names[i] in dir.Keys;
    }
    DecodeEncode(FilesOf(dir));
  }

  lemma DirOfFiles(a: map<string, string>, b: map<string, string>)
    requires FilesOf(a) == FilesOf(b)
    ensures forall n | n in a :: n in b && b[n] == a[n]
  {
    var names := Listing(a.Keys);
    forall n | n in a ensures n in b && b[n] == a[n] {
      var i :| 0 <= i < |names| && names[i] == n;
      assert FilesOf(a)[i] == File(n, a[n]);
      assert FilesOf(b)[i].name in Listing(b.Keys);
    }
  }
}
