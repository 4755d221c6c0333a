/** The pieces of Python's `str` type and of `posixpath` that the two scripts
    rely on, over `string` (a sequence of Unicode code points). */
module Strings {

  /** Python's `str.isspace()`: the code points `str.rstrip()` removes when it
      is called without an argument. */
  predicate IsSpace(c: char) {
    || ('\U{9}' <= c <= '\U{D}')
    || ('\U{1C}' <= c <= '\U{20}')
    || c == '\U{85}' || c == '\U{A0}' || c == '\U{1680}'
    || ('\U{2000}' <= c <= '\U{200A}')
    || c == '\U{2028}' || c == '\U{2029}' || c == '\U{202F}'
    || c == '\U{205F}' || c == '\U{3000}'
  }

  /** `s.rstrip()`: drop the whitespace at the end of `s`. */
  function RStrip(s: string): (r: string)
    ensures |r| <= |s|
    decreases |s|
  {
    if s != [] && IsSpace(s[|s| - 1]) then RStrip(s[..|s| - 1]) else s
  }

  /** `rstrip()` keeps the longest prefix of `s` that does not end in
      whitespace: everything it cuts off is whitespace. */
  lemma {:induction false} RStripSpec(s: string)
    ensures var r := RStrip(s);
      && r == s[..|r|]
      && (r == [] || !IsSpace(r[|r| - 1]))
      && forall i | |r| <= i < |s| :: IsSpace(s[i])
    decreases |s|
  {
    if s != [] && IsSpace(s[|s| - 1]) {
      RStripSpec(s[..|s| - 1]);
    }
  }

  /** `s.rstrip(c)` for a single character `c`. */
  function RStripChar(s: string, c: char): (r: string)
    ensures |r| <= |s|
    decreases |s|
  {
    if s != [] && s[|s| - 1] == c then RStripChar(s[..|s| - 1], c) else s
  }

  lemma {:induction false} RStripCharSpec(s: string, c: char)
    ensures var r := RStripChar(s, c);
      && r == s[..|r|]
      && (r == [] || r[|r| - 1] != c)
      && forall i | |r| <= i < |s| :: s[i] == c
    decreases |s|
  {
    if s != [] && s[|s| - 1] == c {
      RStripCharSpec(s[..|s| - 1], c);
    }
  }

  /** `s.rfind(c)`: the index of the last `c` in `s`, or -1 when there is none. */
  function RFind(s: string, c: char): (r: int)
    ensures -1 <= r < |s|
    decreases |s|
  {
    if s == [] then -1
    else if s[|s| - 1] == c then |s| - 1
    else RFind(s[..|s| - 1], c)
  }

  lemma {:induction false} RFindSpec(s: string, c: char)
    ensures var r := RFind(s, c);
      && (r >= 0 ==> s[r] == c)
      && forall i | r < i < |s| :: s[i] != c
    decreases |s|
  {
    if s != [] && s[|s| - 1] != c {
      RFindSpec(s[..|s| - 1], c);
    }
  }

  /** `s.find(c)`: the index of the first `c` in `s`, or -1. */
  function Find(s: string, c: char): (r: int)
    ensures -1 <= r < |s|
    decreases |s|
  {
    if s == [] then -1
    else if s[0] == c then 0
    else var r := Find(s[1..], c); if r < 0 then -1 else r + 1
  }

  lemma {:induction false} FindSpec(s: string, c: char)
    ensures var r := Find(s, c);
      && (r >= 0 ==> s[r] == c)
      && (r < 0 ==> c !in s)
      && forall i | 0 <= i < r :: s[i] != c
    decreases |s|
  {
    if s != [] && s[0] != c {
      FindSpec(s[1..], c);
      if Find(s[1..], c) < 0 {
        assert forall i | 1 <= i < |s| :: s[i] == s[1..][i - 1];
      }
    }
  }

  predicate AllChar(s: string, c: char) {
    forall i | 0 <= i < |s| :: s[i] == c
  }

  /** `os.path.basename(p)` (posixpath): the text after the last `/`. */
  function Basename(p: string): (r: string)
    ensures |r| <= |p|
  {
    p[RFind(p, '/') + 1..]
  }

  /** The basename is the suffix of `p` that holds no `/` and either is all
      of `p` or follows a `/`. */
  lemma BasenameSpec(p: string)
    ensures var r := Basename(p);
      && '/' !in r
      && p[|p| - |r|..] == r
      && (|r| < |p| ==> p[|p| - |r| - 1] == '/')
  {
    RFindSpec(p, '/');
  }

  /** The basename of a path `dir/name` is `name`. */
  lemma BasenameOfJoin(dir: string, name: string)
    requires '/' !in name
    ensures Basename(dir + "/" + name) == name
  {
    var p := dir + "/" + name;
    RFindSpec(p, '/');
    assert p[|dir|] == '/';
    assert forall i | |dir| < i < |p| :: p[i] == name[i - |dir| - 1];
    assert p[|dir| + 1..] == name;
  }

  /** `os.path.split(p)` (posixpath): the text after the last `/`, and what
      comes before it with its trailing slashes removed unless it consists
      of slashes only. */
  function PathSplit(p: string): (r: (string, string))
  {
    var i := RFind(p, '/') + 1;
    var head := p[..i];
    if head != [] && !AllChar(head, '/') then (RStripChar(head, '/'), p[i..])
    else (head, p[i..])
  }

  /** `split` cuts `p` into a head and the basename with only slashes between
      them; the head is empty exactly when `p` holds no `/`, and it ends in a
      `/` only when it is made of slashes, in which case it is every character
      up to the last `/`. */
  lemma PathSplitSpec(p: string)
    ensures var (head, tail) := PathSplit(p);
      && tail == Basename(p)
      && |head| + |tail| <= |p| && p[..|head|] == head
      && (forall i | |head| <= i < |p| - |tail| :: p[i] == '/')
      && (head != [] <==> '/' in p)
      && (head == [] || head[|head| - 1] != '/' || AllChar(head, '/'))
      && ('/' in p && AllChar(p[..|p| - |tail|], '/') ==> head == p[..|p| - |tail|])
  {
    var i := RFind(p, '/') + 1;
    RFindSpec(p, '/');
    assert i > 0 <==> '/' in p;
    var head := p[..i];
    if head != [] && !AllChar(head, '/') {
      RStripCharSpec(head, '/');
      var h := RStripChar(head, '/');
      assert h != [];
    }
  }

  /** `pat` occurs in `s` at index `i`. */
  predicate OccursAt(s: string, pat: string, i: nat) {
    i + |pat| <= |s| && s[i..i + |pat|] == pat
  }

  /** `s.replace(pat, "")`: scanning left to right, every non-overlapping
      occurrence of `pat` is deleted, wherever it stands in `s`.  With an
      empty `pat` Python returns `s` unchanged. */
  function RemoveAll(s: string, pat: string): (r: string)
    ensures |r| <= |s|
    decreases |s|
  {
    if pat == [] || |s| < |pat| then s
    else if s[..|pat|] == pat then RemoveAll(s[|pat|..], pat)
    else [s[0]] + RemoveAll(s[1..], pat)
  }

  /** Where `pat` does not occur, `replace` changes nothing. */
  lemma {:induction false} RemoveAllAbsent(s: string, pat: string)
    requires forall i: nat | i <= |s| :: !OccursAt(s, pat, i)
    ensures RemoveAll(s, pat) == s
    decreases |s|
  {
    if pat != [] && |s| >= |pat| {
      assert !OccursAt(s, pat, 0);
      assert s[..|pat|] != pat;
      forall i: nat | i <= |s[1..]| ensures !OccursAt(s[1..], pat, i) {
        assert !OccursAt(s, pat, i + 1);
        if i + |pat| <= |s[1..]| {
          assert s[1..][i..i + |pat|] == s[i + 1..i + 1 + |pat|];
        }
      }
      RemoveAllAbsent(s[1..], pat);
    }
  }

  /** `replace` agrees with stripping `pat` as a prefix when `pat` does not
      occur again in the rest. */
  lemma {:induction false} RemoveAllStripsLonePrefix(pat: string, t: string)
    requires forall i: nat | i <= |t| :: !OccursAt(t, pat, i)
    ensures RemoveAll(pat + t, pat) == t
  {
    if pat != [] {
      assert (pat + t)[..|pat|] == pat;
      assert (pat + t)[|pat|..] == t;
    }
    RemoveAllAbsent(t, pat);
  }

  /** `pat` occurs nowhere in `s` before index `i`. */
  predicate NoneBefore(s: string, pat: string, i: nat) {
    forall j: nat | j < i :: !OccursAt(s, pat, j)
  }

  /** The general step of `replace`: everything before the first occurrence
      of `pat` is kept, that occurrence is deleted, and the scan goes on
      right after it. */
  lemma RemoveAllFirstOccurrence(s: string, pat: string, i: nat)
    requires pat != [] && OccursAt(s, pat, i) && NoneBefore(s, pat, i)
    ensures RemoveAll(s, pat) == s[..i] + RemoveAll(s[i + |pat|..], pat)
  {
    var u, w := s[..i], s[i..];
    assert s == u + w;
    RemoveAllKeepsPrefix(u, w, pat);
    assert w[..|pat|] == pat;
    assert w[|pat|..] == s[i + |pat|..];
  }

  /** A prefix `u` in which no occurrence of `pat` starts passes through
      `replace` untouched. */
  lemma {:induction false} RemoveAllKeepsPrefix(u: string, w: string, pat: string)
    requires pat != [] && NoneBefore(u + w, pat, |u|)
    ensures RemoveAll(u + w, pat) == u + RemoveAll(w, pat)
    decreases |u|
  {
    if u == [] {
      assert u + w == w;
    } else {
      var s := u + w;
      assert !OccursAt(s, pat, 0);
      ShiftNoneBefore(u, w, pat);
      RemoveAllKeepsPrefix(u[1..], w, pat);
      assert s[1..] == u[1..] + w;
      if |s| >= |pat| {
        assert s[..|pat|] != pat by { assert s[..|pat|] == s[0..0 + |pat|]; }
      }
      PrependHead(u, RemoveAll(w, pat));
    }
  }

  lemma PrependHead(u: string, x: string)
    requires u != []
    ensures [u[0]] + (u[1..] + x) == u + x
  {
    assert [u[0]] + u[1..] == u;
  }

  lemma ShiftNoneBefore(u: string, w: string, pat: string)
    requires u != [] && NoneBefore(u + w, pat, |u|)
    ensures NoneBefore(u[1..] + w, pat, |u| - 1)
  {
    var s, t := u + w, u[1..] + w;
    assert t == s[1..];
    forall j: nat | j < |u| - 1 ensures !OccursAt(t, pat, j) {
      assert !OccursAt(s, pat, j + 1);
      if j + |pat| <= |t| {
        assert t[j..j + |pat|] == s[j + 1..j + 1 + |pat|];
      }
    }
  }

  /** `"/".join(parts)` with an arbitrary separator character. */
  function Join(parts: seq<string>, sep: char): string
    decreases |parts|
  {
    if parts == [] then []
    else if |parts| == 1 then parts[0]
    else parts[0] + [sep] + Join(parts[1..], sep)
  }

  /** `s.split(sep)`: never empty (`"".split("/") == [""]`); no segment holds
      the separator, and joining the segments with it gives `s` back. */
  function Split(s: string, sep: char): (r: seq<string>)
    ensures |r| >= 1
    ensures forall k | 0 <= k < |r| :: sep !in r[k]
    ensures Join(r, sep) == s
    decreases |s|
  {
    if s == [] then [[]]
    else
      var rest := Split(s[1..], sep);
      if s[0] == sep then
        assert Join([[]] + rest, sep) == [] + [sep] + Join(rest, sep);
        [[]] + rest
      else
        var r := [[s[0]] + rest[0]] + rest[1..];
        assert r[1..] == rest[1..];
        assert Join(r, sep) == [s[0]] + Join(rest, sep);
        r
  }

  /** The index of the first `sep` in `s`, or `|s|` when there is none. */
  function FirstSep(s: string, sep: char): nat
    decreases |s|
  {
    if s == [] || s[0] == sep then 0 else 1 + FirstSep(s[1..], sep)
  }

  lemma {:induction false} FirstSepAt(s: string, sep: char, n: nat)
    requires n <= |s| && sep !in s[..n]
    requires n == |s| || s[n] == sep
    ensures FirstSep(s, sep) == n
    decreases n
  {
    if n > 0 {
      assert s[0] in s[..n];
      assert s[1..][..n - 1] == s[1..n];
      assert forall c | c in s[1..n] :: c in s[..n];
      FirstSepAt(s[1..], sep, n - 1);
    }
  }

  /** The first segment of a join is everything before the first separator. */
  lemma JoinFirstSegment(a: seq<string>, sep: char)
    requires |a| >= 1 && sep !in a[0]
    ensures |a[0]| <= |Join(a, sep)| && Join(a, sep)[..|a[0]|] == a[0]
    ensures FirstSep(Join(a, sep), sep) == |a[0]|
  {
    var s := Join(a, sep);
    if |a| > 1 {
      assert s == a[0] + ([sep] + Join(a[1..], sep));
      assert s[|a[0]|] == sep;
    }
    assert s[..|a[0]|] == a[0];
    FirstSepAt(s, sep, |a[0]|);
  }

  /** Joining is injective on non-empty lists of separator-free segments. */
  lemma {:induction false} JoinInjective(a: seq<string>, b: seq<string>, sep: char)
    requires |a| >= 1 && |b| >= 1
    requires forall k | 0 <= k < |a| :: sep !in a[k]
    requires forall k | 0 <= k < |b| :: sep !in b[k]
    requires Join(a, sep) == Join(b, sep)
    ensures a == b
    decreases |a|
  {
    var s := Join(a, sep);
    JoinFirstSegment(a, sep);
    JoinFirstSegment(b, sep);
    assert a[0] == b[0];
    if |a| == 1 || |b| == 1 {
      assert |a| == 1 && |b| == 1;
      assert a == [a[0]] && b == [b[0]];
    } else {
      var t := s[|a[0]| + 1..];
      assert Join(a[1..], sep) == t == Join(b[1..], sep);
      JoinInjective(a[1..], b[1..], sep);
      assert a == [a[0]] + a[1..] && b == [b[0]] + b[1..];
    }
  }

  /** `split` inverts `join`: the two are a round trip on non-empty lists of
      separator-free segments. */
  lemma SplitJoin(parts: seq<string>, sep: char)
    requires |parts| >= 1
    requires forall k | 0 <= k < |parts| :: sep !in parts[k]
    ensures Split(Join(parts, sep), sep) == parts
  {
    JoinInjective(Split(Join(parts, sep), sep), parts, sep);
  }

  /** `concat(seg + "/" for seg in segs)`: the path the mirroring loop appends
      to its running folder URI, one segment at a time. */
  function Nest(segs: seq<string>): string
    decreases |segs|
  {
    if segs == [] then [] else Nest(segs[..|segs| - 1]) + segs[|segs| - 1] + "/"
  }

  /** One more segment appends that segment and a `/`. */
  lemma NestStep(root: string, segs: seq<string>, j: nat)
    requires j < |segs|
    ensures root + Nest(segs[..j + 1]) == root + Nest(segs[..j]) + segs[j] + "/"
  {
    assert segs[..j + 1][..j] == segs[..j];
  }

  lemma {:induction false} NestJoin(segs: seq<string>)
    requires |segs| >= 1
    ensures Nest(segs) == Join(segs, '/') + "/"
    decreases |segs|
  {
    if |segs| > 1 {
      var n := |segs| - 1;
      NestJoin(segs[..n]);
      JoinSnoc(segs[..n], segs[n], '/');
      assert segs[..n] + [segs[n]] == segs;
    }
  }

  lemma {:induction false} JoinSnoc(parts: seq<string>, last: string, sep: char)
    requires |parts| >= 1
    ensures Join(parts + [last], sep) == Join(parts, sep) + [sep] + last
    decreases |parts|
  {
    if |parts| > 1 {
      JoinSnoc(parts[1..], last, sep);
      assert (parts + [last])[1..] == parts[1..] + [last];
    } else {
      assert (parts + [last])[1..] == [last];
    }
  }

  /** Walking the segments of `s.split("/")` appends exactly `s + "/"`. */
  lemma NestSplit(s: string)
    ensures Nest(Split(s, '/')) == s + "/"
  {
    NestJoin(Split(s, '/'));
  }
}
