/**
 * The Go toolchain module proxy served by the download server
 * (internal/dl/server.go): the version list, one line per downloadable
 * archive, and the redirect from a module proxy path to the file on the
 * download host.
 */
module Toolchain {
  import opened Wrappers

  /** The fields of a download the list reads. */
  datatype File = File(kind: string, arch: string, version: string, os: string)

  datatype Release = Release(files: seq<File>)

  /** The releases as the download page groups them. */
  datatype ListData = ListData(stable: seq<Release>, unstable: seq<Release>, archive: seq<Release>)

  /** Only archives, and not the bootstrap toolchains, are listed (server.go:91-93). */
  predicate Listed(f: File) {
    f.kind == "archive" && f.arch != "bootstrap"
  }

  /** The module's name for an architecture: armv6l is published as arm (server.go:99-102). */
  function ModuleArch(arch: string): (r: string)
    ensures r != "armv6l"
    ensures arch != "armv6l" ==> r == arch
  {
    if arch == "armv6l" then "arm" else arch
  }

  /** The module version of a file, the text of its list line. */
  function Entry(f: File): (e: string)
    ensures HasPrefix(e, "v0.0.1-")
    ensures PlainFields(f) ==> NoNewline(e)
  {
    var e := "v0.0.1-" + f.version + "." + f.os + "-" + ModuleArch(f.arch);
    assert e[..7] == "v0.0.1-";
    e
  }

  /** The lines written for the files of one release, in their stored order (server.go:90-105). */
  function FileLines(files: seq<File>): (out: string)
    ensures out == Join(Entries(files))
  {
    if |files| == 0 then ""
    else
      var head := if Listed(files[0]) then [Entry(files[0])] else [];
      JoinAppend(head, Entries(files[1..]));
      (if Listed(files[0]) then Entry(files[0]) + "\n" else "") + FileLines(files[1..])
  }

  /** The lines written for a group of releases, release by release (server.go:89-106). */
  function ReleaseLines(rs: seq<Release>): (out: string)
    ensures out == Join(Entries(Files(rs)))
  {
    if |rs| == 0 then ""
    else
      EntriesAppend(rs[0].files, Files(rs[1..]));
      JoinAppend(Entries(rs[0].files), Entries(Files(rs[1..])));
      FileLines(rs[0].files) + ReleaseLines(rs[1..])
  }

  /**
   * The body of the version list (server.go:87-107): the entries of the
   * listed files, each followed by a newline, stable releases first, then
   * unstable, then archived.
   */
  function ToolchainList(d: ListData): (out: string)
    ensures out == Join(Entries(AllFiles(d)))
  {
    EntriesAppend(Files(d.stable), Files(d.unstable));
    EntriesAppend(Files(d.stable) + Files(d.unstable), Files(d.archive));
    JoinAppend(Entries(Files(d.stable)), Entries(Files(d.unstable)));
    JoinAppend(Entries(Files(d.stable)) + Entries(Files(d.unstable)), Entries(Files(d.archive)));
    ReleaseLines(d.stable) + ReleaseLines(d.unstable) + ReleaseLines(d.archive)
  }

  // ---------------------------------------------------------------------
  // A reference reading of the list: the entries of the listed files.
  // ---------------------------------------------------------------------

  /** Every file of a group of releases, in order. */
  function Files(rs: seq<Release>): seq<File> {
    if |rs| == 0 then [] else rs[0].files + Files(rs[1..])
  }

  function AllFiles(d: ListData): seq<File> {
    Files(d.stable) + Files(d.unstable) + Files(d.archive)
  }

  /** The entries of the listed files, in order. */
  function Entries(files: seq<File>): (es: seq<string>)
    ensures |es| <= |files|
  {
    if |files| == 0 then []
    else (if Listed(files[0]) then [Entry(files[0])] else []) + Entries(files[1..])
  }

  /** Each string followed by a newline. */
  function Join(ls: seq<string>): string {
    if |ls| == 0 then "" else ls[0] + "\n" + Join(ls[1..])
  }

  /** The offset of the first c in s, or |s| when there is none. */
  function IndexOf(s: string, c: char): (i: nat)
    ensures i <= |s|
    ensures i < |s| ==> s[i] == c
    ensures c !in s[..i]
  {
    var m := Find(s, [c], 0);
    var i := if m.None? then |s| else m.value;
    assert forall k :: 0 <= k < i ==> s[k] != c by {
      forall k | 0 <= k < i
        ensures s[k] != c
      {
        assert !OccursAt([c], s, k);
      }
    }
    i
  }
  /** The newline-terminated lines of a text; an unterminated tail is a last line. */
  function SplitLines(s: string): seq<string>
    decreases |s|
  {
    if |s| == 0 then []
    else
      var i := IndexOf(s, '\n');
      if i == |s| then [s] else [s[..i]] + SplitLines(s[i + 1..])
  }

  predicate NoNewline(s: string) {
    '\n' !in s
  }

  /** Split undoes Join when no string holds a newline. */
  lemma {:induction false} SplitJoin(ls: seq<string>)
    requires forall k :: 0 <= k < |ls| ==> NoNewline(ls[k])
    ensures SplitLines(Join(ls)) == ls
  {
    if |ls| > 0 {
      var rest := ls[1..];
      forall k | 0 <= k < |rest|
        ensures NoNewline(rest[k])
      {
        assert rest[k] == ls[k + 1];
      }
      SplitJoin(rest);
      SplitFirstLine(ls[0], Join(rest));
    }
  }

  /** A line without a newline is split off whole, with its terminator. */
  lemma SplitFirstLine(l: string, t: string)
    requires NoNewline(l)
    ensures SplitLines(l + "\n" + t) == [l] + SplitLines(t)
  {
    var s := l + "\n" + t;
    assert s[..|l|] == l && s[|l|] == '\n';
    FirstIndex(s, '\n', |l|);
    assert s[|l| + 1..] == t;
  }

  /** The first c is at i when s[i] is c and none comes before it. */
  lemma FirstIndex(s: string, c: char, i: nat)
    requires i < |s| && s[i] == c && c !in s[..i]
    ensures IndexOf(s, c) == i
  {
  }

  lemma {:induction false} JoinAppend(a: seq<string>, b: seq<string>)
    ensures Join(a + b) == Join(a) + Join(b)
  {
    if |a| > 0 {
      assert (a + b)[0] == a[0] && (a + b)[1..] == a[1..] + b;
      JoinAppend(a[1..], b);
      assert Join(a + b) == a[0] + "\n" + (Join(a[1..]) + Join(b));
    } else {
      assert a + b == b;
    }
  }

  lemma {:induction false} EntriesAppend(a: seq<File>, b: seq<File>)
    ensures Entries(a + b) == Entries(a) + Entries(b)
  {
    if |a| > 0 {
      assert (a + b)[0] == a[0] && (a + b)[1..] == a[1..] + b;
      EntriesAppend(a[1..], b);
    } else {
      assert a + b == b;
    }
  }

  /** The fields a list line is built from carry no newline. */
  predicate PlainFields(f: File) {
    NoNewline(f.version) && NoNewline(f.os) && NoNewline(f.arch)
  }

  lemma {:induction false} EntriesHaveNoNewline(files: seq<File>)
    requires forall k :: 0 <= k < |files| ==> PlainFields(files[k])
    ensures forall k :: 0 <= k < |Entries(files)| ==> NoNewline(Entries(files)[k])
  {
    if |files| > 0 {
      EntriesHaveNoNewline(files[1..]);
    }
  }

  /**
   * When no field holds a newline, the lines of the list are exactly the
   * entries of the listed files, in order: one line per listed file and
   * none for any other.
   */
  lemma ListLinesAreEntries(d: ListData)
    requires forall k :: 0 <= k < |AllFiles(d)| ==> PlainFields(AllFiles(d)[k])
    ensures SplitLines(ToolchainList(d)) == Entries(AllFiles(d))
  {
    EntriesHaveNoNewline(AllFiles(d));
    SplitJoin(Entries(AllFiles(d)));
  }

  /** The number of listed files. */
  function CountListed(files: seq<File>): nat {
    if |files| == 0 then 0 else (if Listed(files[0]) then 1 else 0) + CountListed(files[1..])
  }

  /** There is one entry per listed file. */
  lemma {:induction false} OneEntryPerListedFile(files: seq<File>)
    ensures |Entries(files)| == CountListed(files)
  {
    if |files| > 0 {
      OneEntryPerListedFile(files[1..]);
    }
  }

  /** armv6l and arm are listed under the same name; every other architecture under its own. */
  lemma ModuleArchMerges(a: string, b: string)
    ensures ModuleArch(a) == ModuleArch(b) <==>
      a == b || (a == "armv6l" && b == "arm") || (a == "arm" && b == "armv6l")
  {
    assert "arm" != "armv6l";
  }

  // ---------------------------------------------------------------------
  // The redirect from the module proxy path to the download host.
  // ---------------------------------------------------------------------

  /** The answer to a request on the module proxy path. */
  datatype Reply = MethodNotAllowed | NotFound | Redirect(url: string)

  const DownloadBase: string := "https://dl.google.com/go/"

  /** The path the redirect handler is registered under (server.go:45). */
  const ProxyRoute: string := "/dl/mod/golang.org/toolchain/@v/"

  const Separator: string := "/@v/"

  predicate OccursAt(sep: string, s: string, i: nat) {
    i + |sep| <= |s| && s[i..i + |sep|] == sep
  }

  /** The offset of the first occurrence of sep in s from i on. */
  function Find(s: string, sep: string, i: nat): (r: Option<nat>)
    requires i <= |s|
    ensures r.Some? ==> i <= r.value && OccursAt(sep, s, r.value)
    ensures forall k :: i <= k && (r.None? || k < r.value) ==> !OccursAt(sep, s, k)
    decreases |s| - i
  {
    if |s| < i + |sep| then None
    else if s[i..i + |sep|] == sep then Some(i)
    else Find(s, sep, i + 1)
  }

  /** The text after the first sep, or "" without one (strings.Cut's after part). */
  function After(s: string, sep: string): (r: string)
    ensures (exists i: nat :: OccursAt(sep, s, i)) ==>
      exists i: nat :: OccursAt(sep, s, i) && r == s[i + |sep|..]
        && forall k: nat :: k < i ==> !OccursAt(sep, s, k)
    ensures (forall i: nat :: !OccursAt(sep, s, i)) ==> r == ""
  {
    match Find(s, sep, 0)
    case None => ""
    case Some(i) => s[i + |sep|..]
  }
  predicate HasPrefix(s: string, p: string) {
    |p| <= |s| && s[..|p|] == p
  }

  /** A file name the proxy forwards: a v0. or v1. version and no further path (server.go:295). */
  predicate Forwarded(file: string) {
    (HasPrefix(file, "v0.") || HasPrefix(file, "v1.")) && '/' !in file
  }

  predicate AllowedMethod(verb: string) {
    verb == "GET" || verb == "HEAD" || verb == "OPTIONS"
  }

  /** The handler for module proxy paths (server.go:288-301). */
  function ToolchainRedirect(verb: string, path: string): (r: Reply)
    ensures r == MethodNotAllowed <==> !AllowedMethod(verb)
    ensures r.Redirect? <==> AllowedMethod(verb) && Forwarded(After(path, Separator))
    ensures r.Redirect? ==>
      exists i :: OccursAt(Separator, path, i) && r.url == DownloadBase + path[i + 4..]
        && Forwarded(path[i + 4..])
        && forall k :: 0 <= k < i ==> !OccursAt(Separator, path, k)
  {
    if !AllowedMethod(verb) then MethodNotAllowed
    else
      var file := After(path, Separator);
      if !Forwarded(file) then NotFound
      else
        Redirect(DownloadBase + file)
  }

  /**
   * Under the route the handler is registered for, the file is everything
   * after the route: a versioned file name without '/' is sent to the
   * download host under the same name, anything else is not found.
   */
  lemma RedirectUnderRoute(verb: string, file: string)
    requires AllowedMethod(verb)
    ensures ToolchainRedirect(verb, ProxyRoute + file) ==
      if Forwarded(file) then Redirect(DownloadBase + file) else NotFound
  {
    var path := ProxyRoute + file;
    assert path[28..32] == Separator;
    assert OccursAt(Separator, path, 28);
    var head := ProxyRoute[..29];
    assert head == "/dl/mod/golang.org/toolchain/";
    assert '@' !in head;
    forall k | 0 <= k < 28
      ensures !OccursAt(Separator, path, k)
    {
      assert path[k + 1] == head[k + 1] && head[k + 1] != '@';
      assert path[k..k + 4][1] == path[k + 1];
    }
    var r := Find(path, Separator, 0);
    assert r == Some(28);
    assert path[32..] == file;
  }

  /** The version list's own path is not forwarded. */
  lemma ListPathNotForwarded()
    ensures ToolchainRedirect("GET", ProxyRoute + "list") == NotFound
  {
    RedirectUnderRoute("GET", "list");
    assert "list"[..3] == "lis";
  }
}
