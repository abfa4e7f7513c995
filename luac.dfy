/** The script-embedding tool: crawls a source directory for `.lua` files,
    compiles each to bytecode and writes a C source file holding a table of
    `{ path, size, data }` entries, the data escaped byte by byte as `\xHH`.
    The directory tree, the compiler's output and the outcome of each file
    operation are inputs; the Lua table the crawl fills is a map, and the
    order in which `lua_next` walks it is an oracle. */
module Luac {
  import opened Wrappers
  import opened CStrings

  /** A `char` of the bytecode buffer: signed, as on the platforms the tool
      is built for. */
  type SChar = b: int | -128 <= b < 128

  /** The byte's bit pattern read as unsigned. */
  function Unsigned(b: SChar): (u: nat)
    ensures u < 256 && (b >= 0 ==> u == b) && (b < 0 ==> u == b + 256)
  {
    b % 256
  }

  /** `(base[i] >> 4) & 0xF`: the shift of a signed char is arithmetic, that
      is floor division, which is what `/` is here for a positive divisor;
      `& 0xF` keeps the low four bits, which is `% 16`. */
  function High(b: SChar): nat
  {
    (b / 16) % 16
  }

  /** `base[i] & 0xF`. */
  function Low(b: SChar): nat
  {
    b % 16
  }

  /** The two nibbles are those of the unsigned byte, also for negative
      `char` values. */
  lemma Nibbles(b: SChar)
    ensures High(b) == Unsigned(b) / 16 && Low(b) == Unsigned(b) % 16
  {
    if b < 0 {
      assert b / 16 == (b + 256) / 16 - 16;
    }
  }

  /** Upper-case hexadecimal digit: a character of `0-9A-F` that reads back
      as `n`. */
  function HexDigit(n: nat): (c: char)
    requires n < 16
    ensures '0' <= c <= '9' || 'A' <= c <= 'F'
    ensures HexValue(c) == n
  {
    if n < 10 then ('0' as int + n) as char else ('A' as int + n - 10) as char
  }

  /** The value of a hexadecimal digit written by HexDigit, or 0. */
  function HexValue(c: char): nat
  {
    if '0' <= c <= '9' then c as int - '0' as int
    else if 'A' <= c <= 'F' then c as int - 'A' as int + 10
    else 0
  }

  /** One byte as the four characters `\`, `x`, high digit, low digit. */
  function EscapeByte(b: SChar): string
  {
    ['\\', 'x', HexDigit(High(b)), HexDigit(Low(b))]
  }

  /** The escaped form of a byte string: each byte's four characters, in
      order. */
  function Escape(bs: seq<SChar>): string
  {
    if bs == [] then "" else Escape(bs[..|bs| - 1]) + EscapeByte(bs[|bs| - 1])
  }

  /** Reads one `\xHH` group back as a signed char. */
  function DecodeByte(g: string): SChar
    requires |g| == 4
  {
    var v := (16 * HexValue(g[2]) + HexValue(g[3])) % 256;
    if v >= 128 then v - 256 else v
  }

  /** Reads escaped text back, four characters per byte. */
  function Unescape(s: string): seq<SChar>
  {
    if |s| < 4 then [] else Unescape(s[..|s| - 4]) + [DecodeByte(s[|s| - 4..])]
  }

  /** Every byte takes exactly four characters. */
  lemma {:induction false} EscapeLength(bs: seq<SChar>)
    ensures |Escape(bs)| == 4 * |bs|
  {
    if bs != [] {
      EscapeLength(bs[..|bs| - 1]);
    }
  }

  /** Decoding one escaped byte gives the byte back, for all 256 values. */
  lemma ByteRoundTrip(b: SChar)
    ensures DecodeByte(EscapeByte(b)) == b
  {
    Nibbles(b);
    var u := Unsigned(b);
    assert HexValue(HexDigit(High(b))) == High(b);
    assert HexValue(HexDigit(Low(b))) == Low(b);
    assert 16 * (u / 16) + u % 16 == u;
  }

  /** Decoding escaped text gives the bytes back. */
  lemma {:induction false} EscapeRoundTrip(bs: seq<SChar>)
    ensures Unescape(Escape(bs)) == bs
  {
    if bs != [] {
      var init := bs[..|bs| - 1];
      var b := bs[|bs| - 1];
      var s := Escape(bs);
      EscapeRoundTrip(init);
      EscapeLength(init);
      assert s == Escape(init) + EscapeByte(b);
      assert s[..|s| - 4] == Escape(init);
      assert s[|s| - 4..] == EscapeByte(b);
      ByteRoundTrip(b);
      assert bs == init + [b];
    }
  }

  /** The escaping loop of `main`: a four-character `code` buffer whose first
      two characters are fixed, whose digits are `'0'` plus the nibble, moved
      up to `A`..`F` past `'9'`, appended to the entry once per byte. */
  method AppendEscaped(entry: string, base: seq<SChar>) returns (r: string)
    ensures r == entry + Escape(base)
  {
    var code := new char[4];
    code[0] := '\\';
    code[1] := 'x';
    r := entry;
    for i := 0 to |base|
      invariant code[0] == '\\' && code[1] == 'x'
      invariant r == entry + Escape(base[..i])
    {
      code[2] := ('0' as int + High(base[i])) as char;
      code[3] := ('0' as int + Low(base[i])) as char;
      if code[2] > '9' {
        code[2] := (code[2] as int + ('A' as int - '9' as int - 1)) as char;
      }
      if code[3] > '9' {
        code[3] := (code[3] as int + ('A' as int - '9' as int - 1)) as char;
      }
      assert code[..] == EscapeByte(base[i]);
      assert base[..i + 1][..i] == base[..i];
      r := r + code[..];
    }
    assert base[..|base|] == base;
  }

  const EntryOpen: string := "\n\t{ \""
  const EntryClose: string := "\" },"

  /** One table entry: the path, the bytecode length in decimal, and the
      escaped bytecode. */
  function Entry(path: string, data: seq<SChar>): string
  {
    EntryOpen + path + "\", " + Decimal(|data|) + ", \"" + Escape(data) + EntryClose
  }

  /** Builds an entry one `rs_cat` at a time. */
  method BuildEntry(path: string, data: seq<SChar>) returns (entry: string)
    ensures entry == Entry(path, data)
  {
    entry := EntryOpen;
    entry := entry + path;
    entry := entry + "\", ";
    entry := entry + Decimal(|data|);
    entry := entry + ", \"";
    entry := AppendEscaped(entry, data);
    entry := entry + EntryClose;
  }

  /** An entry can be read back: it opens with the fixed text and the path,
      and the text between the third quote and the closing `" },` decodes to
      the bytecode. */
  lemma EntryDecodes(path: string, data: seq<SChar>)
    ensures var e := Entry(path, data);
      var start := |EntryOpen| + |path| + 3 + |Decimal(|data|)| + 3;
      |e| == start + 4 * |data| + |EntryClose|
      && e[..|EntryOpen| + |path|] == EntryOpen + path
      && e[|EntryOpen| + |path| + 3..start - 3] == Decimal(|data|)
      && DecimalValue(e[|EntryOpen| + |path| + 3..start - 3]) == |data|
      && Unescape(e[start..|e| - |EntryClose|]) == data
  {
    var e := Entry(path, data);
    var lead := EntryOpen + path + "\", ";
    var front := lead + Decimal(|data|) + ", \"";
    EscapeLength(data);
    assert e == front + Escape(data) + EntryClose;
    assert e[|front|..|e| - |EntryClose|] == Escape(data);
    assert e[..|EntryOpen| + |path|] == front[..|EntryOpen| + |path|];
    assert e[|lead|..|lead| + |Decimal(|data|)|] == Decimal(|data|);
    DecimalRoundTrip(|data|);
    EscapeRoundTrip(data);
  }

  const Header: string :=
    "/* NOTE: Auto-generated source; do not edit directly. */\n"
    + "#include <stddef.h>\n"
    + "\n"
    + "struct orb_script_builtin_t {\n"
    + "\tconst char *path;\n"
    + "\tsize_t size;\n"
    + "\tconst char *data;\n"
    + "} static const orb_script_builtins[] = {"

  const Footer: string := "\n};\n"

  /** The writes the output file receives, in order: the header, one per
      entry, the footer. */
  function Writes(entries: seq<(string, seq<SChar>)>): (ws: seq<string>)
    ensures |ws| == |entries| + 2 && ws[0] == Header && ws[|ws| - 1] == Footer
    ensures forall i :: 0 <= i < |entries| ==> ws[i + 1] == Entry(entries[i].0, entries[i].1)
  {
    [Header] + seq(|entries|, i requires 0 <= i < |entries| => Entry(entries[i].0, entries[i].1)) + [Footer]
  }

  /** How many writes succeed when the write with index `failAt` (if any)
      is the first to fail. */
  function Succeeding(count: nat, failAt: Option<nat>): (n: nat)
    ensures n <= count
  {
    if failAt.Some? && failAt.value < count then failAt.value else count
  }

  /** Writes the table: each write checked, the first failure ending the
      output. Returns the text the file received and whether every write
      succeeded. */
  method WriteTable(entries: seq<(string, seq<SChar>)>, failAt: Option<nat>) returns (written: string, ok: bool)
    ensures var ws := Writes(entries);
      written == Concat(ws[..Succeeding(|ws|, failAt)]) && ok == (Succeeding(|ws|, failAt) == |ws|)
  {
    ghost var ws := Writes(entries);
    var n := Succeeding(|entries| + 2, failAt);
    written := "";
    ok := false;
    if n == 0 {
      return;
    }
    written := Header;
    WritesFirst(entries);
    var i := 0;
    while i < |entries|
      invariant 0 <= i <= |entries|
      invariant i + 1 <= n
      invariant written == Concat(Writes(entries)[..i + 1])
    {
      if n == i + 1 {
        return;
      }
      var entry := BuildEntry(entries[i].0, entries[i].1);
      WritesStep(entries, i);
      written := written + entry;
      i := i + 1;
    }
    if n == |entries| + 1 {
      return;
    }
    WritesLast(entries);
    assert ws[..|ws|] == ws;
    written := written + Footer;
    ok := true;
  }

  /** The first write alone gives the header. */
  lemma WritesFirst(entries: seq<(string, seq<SChar>)>)
    ensures Concat(Writes(entries)[..1]) == Header
  {
    assert Writes(entries)[..1] == [Header];
  }

  /** One more write appends the next entry. */
  lemma WritesStep(entries: seq<(string, seq<SChar>)>, i: nat)
    requires i < |entries|
    ensures Concat(Writes(entries)[..i + 2]) == Concat(Writes(entries)[..i + 1]) + Entry(entries[i].0, entries[i].1)
  {
    var ws := Writes(entries);
    ConcatAppend(ws[..i + 1], ws[i + 1]);
    assert ws[..i + 2] == ws[..i + 1] + [ws[i + 1]];
  }

  /** The last write appends the footer. */
  lemma WritesLast(entries: seq<(string, seq<SChar>)>)
    ensures Concat(Writes(entries)) == Concat(Writes(entries)[..|entries| + 1]) + Footer
  {
    var ws := Writes(entries);
    ConcatAppend(ws[..|entries| + 1], Footer);
    assert ws == ws[..|entries| + 1] + [Footer];
  }

  /** A successful write produces the header, the entries in order and the
      footer. */
  lemma {:induction false} WrittenTable(entries: seq<(string, seq<SChar>)>)
    ensures Concat(Writes(entries)) == Header + Concat(Writes(entries)[1..|entries| + 1]) + Footer
  {
    var ws := Writes(entries);
    var mid := ws[1..|entries| + 1];
    ConcatPrepend(Header, mid);
    assert [Header] + mid == ws[..|entries| + 1];
    ConcatAppend(ws[..|entries| + 1], Footer);
    assert ws == ws[..|entries| + 1] + [Footer];
  }

  /** Concatenation distributes over putting one more part in front. */
  lemma {:induction false} ConcatPrepend(p: string, parts: seq<string>)
    ensures Concat([p] + parts) == p + Concat(parts)
    decreases |parts|
  {
    if parts != [] {
      var init := parts[..|parts| - 1];
      ConcatPrepend(p, init);
      assert ([p] + parts)[..|parts|] == [p] + init;
    }
  }

  /** What compiling a file gives: the bytecode with and without debug
      information, or the compiler's error message. */
  datatype Load = Loaded(debugDump: seq<SChar>, strippedDump: seq<SChar>) | LoadError(message: string)

  /** A directory entry as `readdir` (and, when the type is unknown,
      `fstatat`) reports it: a file, a subdirectory (whose opening either
      gives its listing or fails with an error text), or a failed
      `fstatat`. */
  datatype Kind = File(load: Load) | Subdir(contents: Result<Listing, string>) | StatError(errText: string)

  datatype DirEnt = DirEnt(name: string, kind: Kind)

  /** A directory's entries in `readdir` order, and the error text when the
      listing ended with `errno` set. */
  datatype Listing = Listing(entries: seq<DirEnt>, readError: Option<string>)

  /** The table being filled and the text written to stderr so far. */
  datatype CrawlState = CrawlState(table: map<string, seq<SChar>>, stderr: string)

  datatype Crawl = Crawl(status: int, state: CrawlState)

  /** A name the crawl compiles: at least four characters, ending in
      `.lua`. */
  predicate IsLua(name: string)
  {
    |name| >= 4 && name[|name| - 4..] == ".lua"
  }

  /** The path of a directory entry under the crawl's current path. */
  function ChildPath(path: string, name: string): string
  {
    path + "/" + name
  }

  /** What opening a subdirectory hands to the recursive crawl as the source
      is written: `openat` and `fdopendir` are not checked, so a failure
      passes a NULL directory stream on, which `readdir` then dereferences. */
  datatype DirStream = Stream(listing: Listing) | NullStream

  function OpenSubdirAsWritten(contents: Result<Listing, string>): DirStream
  {
    if contents.Success? then Stream(contents.value) else NullStream
  }

  /** The message `main` prints when the root directory cannot be opened. */
  function OpendirError(dir: string, errText: string): string
  {
    "error: opendir(" + dir + "): " + errText + "\n"
  }

  /** The checked opening: the listing of a subdirectory that opens is
      crawled as it is, and one that does not is reported with the message
      the root directory's failure gets. */
  function OpenSubdir(contents: Result<Listing, string>, child: string): (r: Result<Listing, string>)
    ensures r.Success? <==> contents.Success?
    ensures r.Success? ==> r.value == contents.value
    ensures r.Failure? ==> r.error == OpendirError(child, contents.error)
  {
    match contents
    case Success(listing) => Success(listing)
    case Failure(errText) => Failure(OpendirError(child, errText))
  }

  /** `crawl_directory` from the `i`-th entry of a listing on: skips `.` and
      `..`, recurses into subdirectories, compiles `.lua` files into the
      table under their path, and stops at the first error with status 1. */
  function CrawlFrom(root: string, listing: Listing, i: nat, path: string, debug: bool, st: CrawlState): Crawl
    requires i <= |listing.entries|
    decreases listing, |listing.entries| - i
  {
    if i == |listing.entries| then
      if listing.readError.Some? then
        Crawl(1, st.(stderr := st.stderr + "error: readdir(" + root + "/" + path + "): " + listing.readError.value + "\n"))
      else Crawl(0, st)
    else
      var e := listing.entries[i];
      assert e in listing.entries;
      if e.name == "." || e.name == ".." then CrawlFrom(root, listing, i + 1, path, debug, st)
      else
        var child := ChildPath(path, e.name);
        match e.kind
        case StatError(err) =>
          Crawl(1, st.(stderr := st.stderr + "error: fstatat(" + child + "): " + err + "\n"))
        case Subdir(contents) =>
          var sub0 := OpenSubdir(contents, child);
          if sub0.Failure? then Crawl(1, st.(stderr := st.stderr + sub0.error))
          else
            var sub := CrawlFrom(root, sub0.value, 0, child, debug, st);
            if sub.status != 0 then sub else CrawlFrom(root, listing, i + 1, path, debug, sub.state)
        case File(load) =>
          if !IsLua(e.name) then CrawlFrom(root, listing, i + 1, path, debug, st)
          else
            var abs := root + "/" + child;
            match load
            case LoadError(msg) =>
              Crawl(1, st.(stderr := st.stderr + "error: when loading " + abs + ":\n\n" + msg + "\n"))
            case Loaded(full, stripped) =>
              CrawlFrom(root, listing, i + 1, path, debug, st.(table := st.table[child := if debug then full else stripped]))
  }

  /** What the recursive crawl of a subdirectory comes to as the source is
      written: a stream is crawled, and a NULL stream reaches `readdir`,
      which dereferences it. */
  datatype SubdirOutcome = Crawled(r: Crawl) | NullDereference

  function SubdirAsWritten(root: string, contents: Result<Listing, string>, child: string, debug: bool, st: CrawlState): SubdirOutcome
  {
    match OpenSubdirAsWritten(contents)
    case NullStream => NullDereference
    case Stream(listing) => Crawled(CrawlFrom(root, listing, 0, child, debug, st))
  }

  /** A subdirectory that cannot be opened (one without read permission,
      say): as written, its crawl dereferences a NULL stream; with the
      checked opening, the crawl stops with status 1 and names it. */
  lemma UnreadableSubdir(root: string, name: string, errText: string, debug: bool)
    requires name != "." && name != ".."
    ensures SubdirAsWritten(root, Failure(errText), "/" + name, debug, CrawlState(map[], "")) == NullDereference
    ensures CrawlFrom(root, Listing([DirEnt(name, Subdir(Failure(errText)))], None), 0, "", debug, CrawlState(map[], ""))
      == Crawl(1, CrawlState(map[], "error: opendir(/" + name + "): " + errText + "\n"))
  {
    assert ChildPath("", name) == "/" + name;
  }

  /** `crawl_directory`: the `readdir` loop, with the recursive call for a
      subdirectory; the `finish` label is a return. */
  method CrawlDirectory(root: string, listing: Listing, path: string, debug: bool, st: CrawlState) returns (r: Crawl)
    ensures r == CrawlFrom(root, listing, 0, path, debug, st)
    decreases listing
  {
    var cur := st;
    var i := 0;
    while i < |listing.entries|
      invariant i <= |listing.entries|
      invariant CrawlFrom(root, listing, i, path, debug, cur) == CrawlFrom(root, listing, 0, path, debug, st)
    {
      var e := listing.entries[i];
      assert e in listing.entries;
      if e.name == "." || e.name == ".." {
        i := i + 1;
        continue;
      }
      var child := path + "/" + e.name;
      match e.kind {
        case StatError(err) =>
          return Crawl(1, cur.(stderr := cur.stderr + "error: fstatat(" + child + "): " + err + "\n"));
        case Subdir(contents) =>
          var sub0 := OpenSubdir(contents, child);
          if sub0.Failure? {
            return Crawl(1, cur.(stderr := cur.stderr + sub0.error));
          }
          var sub := CrawlDirectory(root, sub0.value, child, debug, cur);
          if sub.status != 0 {
            return sub;
          }
          cur := sub.state;
        case File(load) =>
          if !IsLua(e.name) {
            i := i + 1;
            continue;
          }
          var abs := root + "/" + child;
          match load {
            case LoadError(msg) =>
              return Crawl(1, cur.(stderr := cur.stderr + "error: when loading " + abs + ":\n\n" + msg + "\n"));
            case Loaded(full, stripped) =>
              cur := cur.(table := cur.table[child := if debug then full else stripped]);
          }
      }
      i := i + 1;
    }
    if listing.readError.Some? {
      return Crawl(1, cur.(stderr := cur.stderr + "error: readdir(" + root + "/" + path + "): " + listing.readError.value + "\n"));
    }
    return Crawl(0, cur);
  }

  /** A key the crawl from `path` adds: the path, a `/`, and something
      ending in `.lua` of at least four characters. */
  predicate KeyUnder(k: string, path: string)
  {
    |k| >= |path| + 5 && k[..|path| + 1] == path + "/" && k[|k| - 4..] == ".lua"
  }

  /** Every key the crawl adds lies under the crawl's path and names a
      `.lua` file, and keys already present stay. */
  lemma {:induction false} CrawlKeys(root: string, listing: Listing, i: nat, path: string, debug: bool, st: CrawlState)
    requires i <= |listing.entries|
    ensures var r := CrawlFrom(root, listing, i, path, debug, st);
      st.table.Keys <= r.state.table.Keys
      && forall k :: k in r.state.table && k !in st.table ==> KeyUnder(k, path)
    decreases listing, |listing.entries| - i
  {
    if i < |listing.entries| {
      var e := listing.entries[i];
      assert e in listing.entries;
      if e.name != "." && e.name != ".." {
        var child := ChildPath(path, e.name);
        match e.kind
        case StatError(_) =>
        case Subdir(contents) =>
          var sub0 := OpenSubdir(contents, child);
          if sub0.Success? {
            CrawlKeys(root, sub0.value, 0, child, debug, st);
            var sub := CrawlFrom(root, sub0.value, 0, child, debug, st);
            forall k | k in sub.state.table && k !in st.table
              ensures KeyUnder(k, path)
            {
              assert KeyUnder(k, child);
              assert k[..|path| + 1] == k[..|child| + 1][..|path| + 1];
            }
            if sub.status == 0 {
              CrawlKeys(root, listing, i + 1, path, debug, sub.state);
            }
          }
        case File(load) =>
          if !IsLua(e.name) {
            CrawlKeys(root, listing, i + 1, path, debug, st);
          } else if load.Loaded? {
            var st' := st.(table := st.table[child := if debug then load.debugDump else load.strippedDump]);
            assert KeyUnder(child, path) by {
              assert child[|child| - 4..] == e.name[|e.name| - 4..];
            }
            CrawlKeys(root, listing, i + 1, path, debug, st');
          }
      } else {
        CrawlKeys(root, listing, i + 1, path, debug, st);
      }
    }
  }

  /** A key the entry `name` under `path` can give rise to: the entry's own
      path, or a path below it when the entry is a subdirectory. */
  predicate Reaches(path: string, name: string, k: string)
  {
    var c := ChildPath(path, name);
    k == c || (|k| >= |c| + 1 && k[..|c| + 1] == c + "/")
  }

  /** Whatever an entry of a subdirectory reaches lies below that
      subdirectory. */
  lemma ReachesBelow(child: string, name: string, k: string)
    requires Reaches(child, name, k)
    ensures |k| >= |child| + 1 && k[..|child| + 1] == child + "/"
  {
    var c := ChildPath(child, name);
    assert c[..|child| + 1] == child + "/";
    if k != c {
      assert k[..|child| + 1] == k[..|c| + 1][..|child| + 1];
    }
  }

  /** A `/`-free name is reached from its own path by no entry with a
      different name. */
  lemma NotReached(path: string, other: string, name: string)
    requires other != name && '/' !in name
    ensures !Reaches(path, other, ChildPath(path, name))
  {
    var k := ChildPath(path, name);
    var c := ChildPath(path, other);
    assert k[|path| + 1..] == name;
    assert c[|path| + 1..] == other;
    if |k| >= |c| + 1 {
      assert k[|c|] == name[|other|];
      assert (c + "/")[|c|] == '/';
    }
  }

  /** The crawl leaves alone every key that none of the remaining entries
      reaches: it stays in the table with its value. */
  lemma {:induction false} CrawlKeeps(root: string, listing: Listing, i: nat, path: string, debug: bool, st: CrawlState, k: string)
    requires i <= |listing.entries|
    requires k in st.table
    requires forall m :: i <= m < |listing.entries| ==> !Reaches(path, listing.entries[m].name, k)
    ensures var r := CrawlFrom(root, listing, i, path, debug, st);
      k in r.state.table && r.state.table[k] == st.table[k]
    decreases listing, |listing.entries| - i
  {
    if i < |listing.entries| {
      var e := listing.entries[i];
      assert e in listing.entries;
      assert !Reaches(path, e.name, k);
      if e.name != "." && e.name != ".." {
        var child := ChildPath(path, e.name);
        match e.kind
        case StatError(_) =>
        case Subdir(contents) =>
          var sub0 := OpenSubdir(contents, child);
          if sub0.Success? {
            forall m | 0 <= m < |sub0.value.entries|
              ensures !Reaches(child, sub0.value.entries[m].name, k)
            {
              if Reaches(child, sub0.value.entries[m].name, k) {
                ReachesBelow(child, sub0.value.entries[m].name, k);
                assert false;
              }
            }
            CrawlKeeps(root, sub0.value, 0, child, debug, st, k);
            var sub := CrawlFrom(root, sub0.value, 0, child, debug, st);
            if sub.status == 0 {
              CrawlKeeps(root, listing, i + 1, path, debug, sub.state, k);
            }
          }
        case File(load) =>
          if !IsLua(e.name) {
            CrawlKeeps(root, listing, i + 1, path, debug, st, k);
          } else if load.Loaded? {
            var st' := st.(table := st.table[child := if debug then load.debugDump else load.strippedDump]);
            CrawlKeeps(root, listing, i + 1, path, debug, st', k);
          }
      } else {
        CrawlKeeps(root, listing, i + 1, path, debug, st, k);
      }
    }
  }

  /** The converse of CrawlKeys: a successful crawl stores every `.lua` file
      it passes under its path, with the dump the debug flag selects, when
      the file's name has no `/` and no later entry has the same name. */
  lemma {:induction false} CrawlStores(root: string, listing: Listing, i: nat, path: string, debug: bool, st: CrawlState, j: nat)
    requires i <= j < |listing.entries|
    requires var e := listing.entries[j];
      && e.name != "." && e.name != ".." && IsLua(e.name) && '/' !in e.name
      && e.kind.File? && e.kind.load.Loaded?
    requires forall m :: j < m < |listing.entries| ==> listing.entries[m].name != listing.entries[j].name
    requires CrawlFrom(root, listing, i, path, debug, st).status == 0
    ensures var e := listing.entries[j];
      var r := CrawlFrom(root, listing, i, path, debug, st);
      && ChildPath(path, e.name) in r.state.table
      && r.state.table[ChildPath(path, e.name)] == (if debug then e.kind.load.debugDump else e.kind.load.strippedDump)
    decreases j - i
  {
    var e := listing.entries[i];
    assert e in listing.entries;
    if i == j {
      var key := ChildPath(path, e.name);
      var st' := st.(table := st.table[key := if debug then e.kind.load.debugDump else e.kind.load.strippedDump]);
      assert CrawlFrom(root, listing, i, path, debug, st) == CrawlFrom(root, listing, i + 1, path, debug, st');
      forall m | i + 1 <= m < |listing.entries|
        ensures !Reaches(path, listing.entries[m].name, key)
      {
        NotReached(path, listing.entries[m].name, e.name);
      }
      CrawlKeeps(root, listing, i + 1, path, debug, st', key);
    } else if e.name == "." || e.name == ".." {
      CrawlStores(root, listing, i + 1, path, debug, st, j);
    } else {
      var child := ChildPath(path, e.name);
      match e.kind
      case StatError(_) =>
      case Subdir(contents) =>
        var sub0 := OpenSubdir(contents, child);
        if sub0.Success? {
          var sub := CrawlFrom(root, sub0.value, 0, child, debug, st);
          if sub.status == 0 {
            CrawlStores(root, listing, i + 1, path, debug, sub.state, j);
          }
        }
      case File(load) =>
        if !IsLua(e.name) {
          CrawlStores(root, listing, i + 1, path, debug, st, j);
        } else if load.Loaded? {
          var st' := st.(table := st.table[child := if debug then load.debugDump else load.strippedDump]);
          CrawlStores(root, listing, i + 1, path, debug, st', j);
        }
    }
  }

  /** A successful crawl wrote nothing to stderr. */
  lemma {:induction false} CrawlQuiet(root: string, listing: Listing, i: nat, path: string, debug: bool, st: CrawlState)
    requires i <= |listing.entries|
    ensures var r := CrawlFrom(root, listing, i, path, debug, st);
      (r.status == 0 || r.status == 1) && (r.status == 0 ==> r.state.stderr == st.stderr)
    decreases listing, |listing.entries| - i
  {
    if i < |listing.entries| {
      var e := listing.entries[i];
      assert e in listing.entries;
      if e.name != "." && e.name != ".." {
        var child := ChildPath(path, e.name);
        match e.kind
        case StatError(_) =>
        case Subdir(contents) =>
          var sub0 := OpenSubdir(contents, child);
          if sub0.Success? {
            CrawlQuiet(root, sub0.value, 0, child, debug, st);
            var sub := CrawlFrom(root, sub0.value, 0, child, debug, st);
            if sub.status == 0 {
              CrawlQuiet(root, listing, i + 1, path, debug, sub.state);
            }
          }
        case File(load) =>
          if !IsLua(e.name) {
            CrawlQuiet(root, listing, i + 1, path, debug, st);
          } else if load.Loaded? {
            CrawlQuiet(root, listing, i + 1, path, debug,
              st.(table := st.table[child := if debug then load.debugDump else load.strippedDump]));
          }
      } else {
        CrawlQuiet(root, listing, i + 1, path, debug, st);
      }
    }
  }

  /** A directory holding one compiled file: the table has that file under
      `/name`, with the full bytecode in debug mode and the stripped one
      otherwise; other files and the `.` and `..` entries add nothing. */
  lemma SingleFile(root: string, name: string, full: seq<SChar>, stripped: seq<SChar>, other: string, debug: bool)
    requires IsLua(name) && !IsLua(other) && other != "." && other != ".."
    ensures var listing := Listing([DirEnt(".", Subdir(Failure(""))), DirEnt(other, File(LoadError(""))),
                                    DirEnt(name, File(Loaded(full, stripped)))], None);
      CrawlFrom(root, listing, 0, "", debug, CrawlState(map[], ""))
        == Crawl(0, CrawlState(map["/" + name := if debug then full else stripped], ""))
  {
    var listing := Listing([DirEnt(".", Subdir(Failure(""))), DirEnt(other, File(LoadError(""))),
                            DirEnt(name, File(Loaded(full, stripped)))], None);
    var st := CrawlState(map[], "");
    var st' := CrawlState(map["/" + name := if debug then full else stripped], "");
    assert ChildPath("", name) == "/" + name;
    assert CrawlFrom(root, listing, 2, "", debug, st) == CrawlFrom(root, listing, 3, "", debug, st');
    assert CrawlFrom(root, listing, 1, "", debug, st) == CrawlFrom(root, listing, 2, "", debug, st);
  }

  /** The command line, and the outcomes of the operations `main` performs
      outside the crawl: opening the source directory, opening the output
      file, and the writes (the index of the first failing one, if any,
      with the error text). `enumerate` is the order in which `lua_next`
      walks a table's keys. */
  datatype LuacIo = LuacIo(
    rootError: Option<string>,
    root: Listing,
    outError: Option<string>,
    writeFailAt: Option<nat>,
    writeError: string,
    enumerate: map<string, seq<SChar>> -> seq<string>)

  /** How a run ends: the exit status, what went to stderr, and what the
      output file received if it was opened. */
  datatype LuacRun = LuacRun(status: int, stderr: string, output: Option<string>)

  function Usage(arg0: string): string
  {
    "usage: " + arg0 + " <source_dir/> <prefix> <output_file.c> <debug:1|0>\n"
  }

  /** The table's entries in the walk's order (keys it does not hold are
      passed over). */
  function Enumerated(table: map<string, seq<SChar>>, keys: seq<string>): (es: seq<(string, seq<SChar>)>)
    ensures |es| <= |keys|
    ensures forall e :: e in es ==> e.0 in table && table[e.0] == e.1
  {
    if keys == [] then []
    else
      var rest := Enumerated(table, keys[..|keys| - 1]);
      var k := keys[|keys| - 1];
      if k in table then rest + [(k, table[k])] else rest
  }

  /** The walk `lua_next` makes over a table that the loop does not change:
      every key of the table, each exactly once, in some order. */
  predicate WalksOnce(table: map<string, seq<SChar>>, keys: seq<string>)
  {
    && (forall i, j :: 0 <= i < j < |keys| ==> keys[i] != keys[j])
    && (forall k :: k in keys ==> k in table)
    && (forall k :: k in table ==> k in keys)
  }

  /** Over keys the table holds, the entries are the walked keys with their
      values, in the walk's order. */
  lemma {:induction false} EnumeratedHeld(table: map<string, seq<SChar>>, keys: seq<string>)
    requires forall k :: k in keys ==> k in table
    ensures |Enumerated(table, keys)| == |keys|
    ensures forall i :: 0 <= i < |keys| ==> Enumerated(table, keys)[i] == (keys[i], table[keys[i]])
  {
    if keys != [] {
      EnumeratedHeld(table, keys[..|keys| - 1]);
    }
  }

  /** A sequence without repeats has as many distinct elements as entries. */
  lemma {:induction false} DistinctCount(keys: seq<string>)
    requires forall i, j :: 0 <= i < j < |keys| ==> keys[i] != keys[j]
    ensures |set k | k in keys| == |keys|
  {
    if keys != [] {
      var init := keys[..|keys| - 1];
      var last := keys[|keys| - 1];
      DistinctCount(init);
      assert (set k | k in keys) == (set k | k in init) + {last};
      assert last !in (set k | k in init);
    }
  }

  /** Under a walk that visits every key once, the entries are exactly the
      table: one per key, with its value, and no key twice. */
  lemma WalkedTable(table: map<string, seq<SChar>>, keys: seq<string>)
    requires WalksOnce(table, keys)
    ensures var es := Enumerated(table, keys);
      && |es| == |table|
      && (forall k :: k in table ==> (k, table[k]) in es)
      && (forall i, j :: 0 <= i < j < |es| ==> es[i].0 != es[j].0)
  {
    var es := Enumerated(table, keys);
    EnumeratedHeld(table, keys);
    DistinctCount(keys);
    assert (set k | k in keys) == table.Keys;
    forall k | k in table
      ensures (k, table[k]) in es
    {
      var i :| 0 <= i < |keys| && keys[i] == k;
      assert es[i] == (k, table[k]);
    }
  }

  /** `main`: checks the argument count, opens the source directory, crawls
      it from the empty path, opens the output file and writes the table;
      debug mode is on unless the fourth argument is `0`. */
  function Luac(argv: seq<string>, io: LuacIo): LuacRun
  {
    if |argv| != 5 then LuacRun(2, Usage(if |argv| > 0 then argv[0] else "orb-luac"), None)
    else if io.rootError.Some? then LuacRun(1, OpendirError(argv[1], io.rootError.value), None)
    else
      var c := CrawlFrom(argv[1], io.root, 0, "", argv[4] != "0", CrawlState(map[], ""));
      if c.status != 0 then LuacRun(1, c.state.stderr, None)
      else if io.outError.Some? then LuacRun(1, c.state.stderr + "error: fopen(): " + io.outError.value + "\n", None)
      else
        var ws := Writes(Enumerated(c.state.table, io.enumerate(c.state.table)));
        var n := Succeeding(|ws|, io.writeFailAt);
        if n < |ws| then LuacRun(1, c.state.stderr + "error: write(): " + io.writeError + "\n", Some(Concat(ws[..n])))
        else LuacRun(0, c.state.stderr, Some(Concat(ws)))
  }

  /** `main`, step by step, with its `goto` chain as early exits. */
  method RunLuac(argv: seq<string>, io: LuacIo) returns (r: LuacRun)
    ensures r == Luac(argv, io)
  {
    if |argv| != 5 {
      return LuacRun(2, Usage(if |argv| > 0 then argv[0] else "orb-luac"), None);
    }
    var rootPath := argv[1];
    if io.rootError.Some? {
      return LuacRun(1, OpendirError(argv[1], io.rootError.value), None);
    }
    var debug := argv[4] != "0";
    var c := CrawlDirectory(rootPath, io.root, "", debug, CrawlState(map[], ""));
    if c.status != 0 {
      return LuacRun(1, c.state.stderr, None);
    }
    if io.outError.Some? {
      return LuacRun(1, c.state.stderr + "error: fopen(): " + io.outError.value + "\n", None);
    }
    var written, ok := WriteTable(Enumerated(c.state.table, io.enumerate(c.state.table)), io.writeFailAt);
    if !ok {
      return LuacRun(1, c.state.stderr + "error: write(): " + io.writeError + "\n", Some(written));
    }
    assert Writes(Enumerated(c.state.table, io.enumerate(c.state.table)))[..|Writes(Enumerated(c.state.table, io.enumerate(c.state.table)))|]
      == Writes(Enumerated(c.state.table, io.enumerate(c.state.table)));
    return LuacRun(0, c.state.stderr, Some(written));
  }

  /** The tool refuses any argument count but four with status 2. */
  lemma LuacUsage(argv: seq<string>, io: LuacIo)
    ensures Luac(argv, io).status == 2 <==> |argv| != 5
    ensures Luac(argv, io).status != 2 ==> Luac(argv, io).status == 0 || Luac(argv, io).status == 1
  {
    if |argv| == 5 && io.rootError.None? {
      CrawlQuiet(argv[1], io.root, 0, "", argv[4] != "0", CrawlState(map[], ""));
    }
  }

  /** The crawl `main` runs on a command line of the right length. */
  function RootCrawl(argv: seq<string>, io: LuacIo): Crawl
    requires |argv| == 5
  {
    CrawlFrom(argv[1], io.root, 0, "", argv[4] != "0", CrawlState(map[], ""))
  }

  /** The entries `main` writes after a successful crawl. */
  function Emitted(argv: seq<string>, io: LuacIo): seq<(string, seq<SChar>)>
    requires |argv| == 5
  {
    var c := RootCrawl(argv, io);
    Enumerated(c.state.table, io.enumerate(c.state.table))
  }

  /** How a successful run got there: every step succeeded and every write
      went through. */
  lemma SuccessSteps(argv: seq<string>, io: LuacIo)
    requires Luac(argv, io).status == 0
    ensures |argv| == 5 && io.rootError.None? && RootCrawl(argv, io).status == 0 && io.outError.None?
    ensures Luac(argv, io) == LuacRun(0, RootCrawl(argv, io).state.stderr, Some(Concat(Writes(Emitted(argv, io)))))
  {
  }

  /** A successful run writes the header, one entry per walked key of the
      table and the footer, and says nothing on stderr. */
  lemma LuacSuccess(argv: seq<string>, io: LuacIo)
    requires Luac(argv, io).status == 0
    ensures |argv| == 5
    ensures var es := Emitted(argv, io);
      && Luac(argv, io).output == Some(Header + Concat(Writes(es)[1..|es| + 1]) + Footer)
      && Luac(argv, io).stderr == ""
  {
    SuccessSteps(argv, io);
    CrawlQuiet(argv[1], io.root, 0, "", argv[4] != "0", CrawlState(map[], ""));
    WrittenTable(Emitted(argv, io));
  }

  /** Every key a run writes begins with `/` and names a `.lua` file: the
      crawl starts from the empty path. */
  lemma LuacKeys(argv: seq<string>, io: LuacIo)
    requires |argv| == 5
    ensures forall e :: e in Emitted(argv, io) ==> |e.0| >= 5 && e.0[0] == '/' && e.0[|e.0| - 4..] == ".lua"
  {
    CrawlKeys(argv[1], io.root, 0, "", argv[4] != "0", CrawlState(map[], ""));
    forall e | e in Emitted(argv, io)
      ensures |e.0| >= 5 && e.0[0] == '/' && e.0[|e.0| - 4..] == ".lua"
    {
      assert KeyUnder(e.0, "");
    }
  }

  /** With `lua_next` visiting every key once, a successful run writes one
      entry for every compiled file, with that file's bytecode, and no file
      twice. */
  lemma LuacComplete(argv: seq<string>, io: LuacIo)
    requires Luac(argv, io).status == 0
    requires WalksOnce(RootCrawl(argv, io).state.table, io.enumerate(RootCrawl(argv, io).state.table))
    ensures var table := RootCrawl(argv, io).state.table;
      var es := Emitted(argv, io);
      && |es| == |table|
      && (forall k :: k in table ==> (k, table[k]) in es)
      && (forall i, j :: 0 <= i < j < |es| ==> es[i].0 != es[j].0)
  {
    var table := RootCrawl(argv, io).state.table;
    WalkedTable(table, io.enumerate(table));
  }
}
