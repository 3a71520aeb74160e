/** Saving the attachments of one message into its own directory (core/message.go): names
    are reduced to a base name, and a numeric suffix is counted up until a name is free. */
module Attachments {
  import opened Decimals
  import opened Sets
  import opened Text

  type Bytes = seq<bv8>

  datatype Attachment = Attachment(fileName: string, data: Bytes)

  /** What the file system does once a candidate does not exist yet. */
  datatype Io = Works | CreateFails | WriteFails | CloseFails

  // ----- names

  /** The position of the last `c`, or |s|. */
  function LastIndex(s: string, c: char): (i: nat)
    ensures i <= |s| && (i < |s| ==> s[i] == c) && (i == |s| <==> c !in s)
    ensures forall k :: i < k < |s| ==> s[k] != c
  {
    if s == "" then 0
    else if s[|s| - 1] == c then |s| - 1
    else
      var i := LastIndex(s[..|s| - 1], c);
      assert s == s[..|s| - 1] + [s[|s| - 1]];
      if i == |s| - 1 then |s| else i
  }

  /** filepath.Ext of a base name. */
  function Ext(name: string): string {
    name[LastIndex(name, '.')..]
  }

  function Candidate(name: string, i: nat): string {
    if i == 0 then name
    else name[..|name| - |Ext(name)|] + "_" + Decimal(i) + Ext(name)
  }

  function StripTrailing(s: string): string {
    if s != "" && s[|s| - 1] == '/' then StripTrailing(s[..|s| - 1]) else s
  }

  /** filepath.Base with forward slashes. */
  function Base(s: string): string {
    if s == "" then "."
    else
      var t := StripTrailing(s);
      if t == "" then "/"
      else var i := LastIndex(t, '/'); if i == |t| then t else t[i + 1..]
  }

  function ToSlashes(s: string): string {
    if s == "" then "" else [if s[0] == '\\' then '/' else s[0]] + ToSlashes(s[1..])
  }

  function Sanitize(name: string): string {
    var b := Base(ToSlashes(name));
    if b in {"", ".", ".."} then "" else b
  }

  /** The name below the directory that joining `candidate` to it gives; "" is the directory. */
  function Target(candidate: string): string {
    if candidate != "" && candidate[0] == '/' then candidate[1..] else candidate
  }

  lemma {:induction false} NoTrailingSlash(s: string)
    ensures var t := StripTrailing(s); t == "" || t[|t| - 1] != '/'
  {
    if s != "" && s[|s| - 1] == '/' { NoTrailingSlash(s[..|s| - 1]); }
  }

  /** A sanitized name is a plain base name: no separator, no reference to a directory. Only
      an input made of nothing but separators comes out as the bare "/". */
  lemma SanitizedIsBaseName(name: string)
    ensures var b := Sanitize(name); b == "" || b == "/" || ('/' !in b && b !in {".", ".."})
  {
    var s := ToSlashes(name);
    NoTrailingSlash(s);
  }

  predicate Separator(c: char) {
    c == '/' || c == '\\'
  }

  lemma {:induction false} ToSlashesAt(s: string)
    ensures |ToSlashes(s)| == |s| && forall i :: 0 <= i < |s| ==> ToSlashes(s)[i] == if Separator(s[i]) then '/' else s[i]
  {
    if s != "" { ToSlashesAt(s[1..]); }
  }

  lemma {:induction false} StripTrailingIs(s: string, tail: string)
    requires forall i :: 0 <= i < |tail| ==> tail[i] == '/'
    ensures StripTrailing(s + tail) == StripTrailing(s)
  {
    if tail == "" {
      assert s + tail == s;
    } else {
      assert (s + tail)[..|s + tail| - 1] == s + tail[..|tail| - 1];
      StripTrailingIs(s, tail[..|tail| - 1]);
    }
  }

  /** What base name is left of a name: what stands behind the last separator, trailing separators
      aside. References to a directory leave nothing. */
  lemma SanitizeKeepsBase(dir: string, base: string, tail: string)
    requires base != "" && forall i :: 0 <= i < |base| ==> !Separator(base[i])
    requires dir != "" ==> Separator(dir[|dir| - 1])
    requires forall i :: 0 <= i < |tail| ==> Separator(tail[i])
    ensures Sanitize(dir + base + tail) == if base in {".", ".."} then "" else base
  {
    var s, n := ToSlashes(dir + base + tail), |dir + base|;
    SlashedParts(dir, base, tail);
    hide ToSlashes, StripTrailing, LastIndex;
    StripTrailingIs(s[..n], s[n..]);
    BaseBehind(s[..n], |dir|, base);
  }

  lemma SlashedParts(dir: string, base: string, tail: string)
    requires forall i :: 0 <= i < |base| ==> !Separator(base[i])
    requires dir != "" ==> Separator(dir[|dir| - 1])
    requires forall i :: 0 <= i < |tail| ==> Separator(tail[i])
    ensures var s, n := ToSlashes(dir + base + tail), |dir + base|;
      && n <= |s| && s == s[..n] + s[n..] && s[..n][|dir|..] == base && (forall i :: 0 <= i < |s[n..]| ==> s[n..][i] == '/')
      && (dir != "" ==> s[..n][|dir| - 1] == '/') && forall i :: 0 <= i < |base| ==> base[i] != '/'
  {
    var name, n := dir + base + tail, |dir + base|;
    ToSlashesAt(name);
    hide ToSlashes;
    var s := ToSlashes(name);
    forall i | 0 <= i < |tail|
      ensures s[n..][i] == '/'
    {
      assert name[n + i] == tail[i];
    }
    forall i | 0 <= i < |base|
      ensures s[|dir| + i] == base[i]
    {
      assert name[|dir| + i] == base[i];
    }
    if dir != "" { assert name[|dir| - 1] == dir[|dir| - 1]; }
    hide *;
    assert s[..n][|dir|..] == base;
  }

  /** What stands behind the last separator of a name that does not end with one. */
  lemma BaseBehind(t: string, k: nat, base: string)
    requires k <= |t| && t[k..] == base != "" && forall i :: 0 <= i < |base| ==> base[i] != '/'
    requires k > 0 ==> t[k - 1] == '/'
    ensures StripTrailing(t) == t && var i := LastIndex(t, '/'); base == if i == |t| then t else t[i + 1..]
  {
    assert t[|t| - 1] == base[|base| - 1];
    var i := LastIndex(t, '/');
    assert forall j :: k <= j < |t| ==> t[j] == base[j - k];
    hide LastIndex;
    if i < |t| { assert i == k - 1; } else { NoneIn(t, k); }
  }

  lemma NoneIn(t: string, k: nat)
    requires k <= |t| && '/' !in t && (k > 0 ==> t[k - 1] == '/')
    ensures k == 0
  {
  }

  /** Names of nothing but separators come out as one, and the empty name leaves nothing. */
  lemma SanitizeSeparators(name: string)
    requires forall i :: 0 <= i < |name| ==> Separator(name[i])
    ensures Sanitize(name) == if name == "" then "" else "/"
  {
    ToSlashesAt(name);
    var s := ToSlashes(name);
    StripTrailingIs("", s);
    assert "" + s == s;
  }

  /** The candidates of a name: the name itself, and then a number behind its stem, in front of
      what begins at its last dot. */
  lemma CandidateShape(name: string, i: nat) returns (stem: string, ext: string)
    ensures name == stem + ext && '.' !in ext[if ext == "" then 0 else 1..] && (ext == "" ==> '.' !in name)
    ensures ext != "" ==> ext[0] == '.'
    ensures Candidate(name, i) == if i == 0 then name else stem + "_" + Decimal(i) + ext
  {
    ext := Ext(name);
    stem := name[..|name| - |ext|];
    assert forall k :: LastIndex(name, '.') < k < |name| ==> ext[k - LastIndex(name, '.')] == name[k];
  }

  predicate Slashed(s: string) {
    s != "" && s[0] == '/'
  }

  /** The candidates of one name either all begin with a separator or none does. */
  lemma CandidateHead(name: string, i: nat)
    ensures Slashed(Candidate(name, i)) == Slashed(name)
  {
  }

  lemma CandidateDecimal(name: string, i: nat)
    requires i > 0
    ensures var k, n := |name| - |Ext(name)|, |Candidate(name, i)| - |Ext(name)|;
            k + 1 <= n && Candidate(name, i)[k + 1..n] == Decimal(i) && n > k + 1
  {
    DecimalRoundTrip(i);
  }

  lemma CandidatesDistinct(name: string, i: nat, j: nat)
    requires i < j
    ensures Candidate(name, i) != Candidate(name, j)
  {
    CandidateDecimal(name, j);
    if i > 0 {
      CandidateDecimal(name, i);
      DecimalRoundTrip(i);
      DecimalRoundTrip(j);
      hide Candidate, Decimal, DecimalValue, Ext;
      var a, b := Candidate(name, i), Candidate(name, j);
      assert a == b ==> Decimal(i) == Decimal(j);
    } else {
      assert |Candidate(name, i)| < |Candidate(name, j)|;
    }
  }

  /** Different attempts use different names. */
  lemma CandidatesDiffer(name: string, i: nat, j: nat)
    requires i < j
    ensures Target(Candidate(name, i)) != Target(Candidate(name, j))
  {
    CandidateHead(name, i);
    CandidateHead(name, j);
    CandidatesDistinct(name, i, j);
    hide Candidate;
    var a, b := Candidate(name, i), Candidate(name, j);
    if Slashed(name) {
      assert a == ['/'] + Target(a) && b == ['/'] + Target(b);
    }
  }

  // ----- the directory

  predicate Exists(files: map<string, Bytes>, target: string) {
    target == "" || target in files
  }

  /** The targets of the first `n` candidates. */
  function Tried(name: string, n: nat): set<string> {
    set i | 0 <= i < n :: Target(Candidate(name, i))
  }

  lemma {:induction false} TriedCount(name: string, n: nat)
    ensures |Tried(name, n)| == n
  {
    hide Target, Candidate;
    if n > 0 {
      TriedCount(name, n - 1);
      var last := Target(Candidate(name, n - 1));
      forall i | 0 <= i < n - 1
        ensures Target(Candidate(name, i)) != last
      {
        CandidatesDiffer(name, i, n - 1);
      }
      assert Tried(name, n) == Tried(name, n - 1) + {last};
    }
  }

  /** Pigeonhole: if the first `n` candidates all exist, the directory holds that many names,
      one of which may be the directory itself. */
  lemma AllTaken(files: map<string, Bytes>, name: string, n: nat)
    requires forall i :: 0 <= i < n ==> Exists(files, Target(Candidate(name, i)))
    ensures n <= |files| + 1
    ensures !Slashed(name) && name != "" ==> n <= |files|
  {
    TriedCount(name, n);
    SubsetSize(Tried(name, n), files.Keys + {""});
    if !Slashed(name) && name != "" {
      forall i | 0 <= i < n
        ensures Target(Candidate(name, i)) != ""
      {
        CandidateHead(name, i);
      }
      SubsetSize(Tried(name, n), files.Keys);
    }
  }

  class Directory {
    var files: map<string, Bytes>

    constructor (files: map<string, Bytes>)
      ensures this.files == files
    {
      this.files := files;
    }

    /** Creates a new file under the first free candidate name, never replacing one. `tries`
        counts the candidates looked at; `io` is what happens at the first free one. */
    method WriteUnique(name: string, data: Bytes, io: Io) returns (saved: Option<string>, tries: nat)
      requires name != ""
      modifies this
      ensures 0 < tries <= |old(files)| + (if Slashed(name) then 2 else 1)
      ensures forall i :: 0 <= i < tries - 1 ==> Exists(old(files), Target(Candidate(name, i)))
      ensures saved == if io.Works? then Some(Target(Candidate(name, tries - 1))) else None
      ensures saved.Some? ==> !Exists(old(files), saved.value) && files == old(files)[saved.value := data]
      ensures saved.None? ==> files == old(files)
    {
      hide Candidate, Target, Slashed;
      var i := 0;
      while true
        invariant files == old(files) && i <= |files| + (if Slashed(name) then 1 else 0)
        invariant forall k :: 0 <= k < i ==> Exists(files, Target(Candidate(name, k)))
        decreases |files| + 2 - i
      {
        var path := Target(Candidate(name, i));
        if Exists(files, path) {
          AllTaken(files, name, i + 1);
          i := i + 1;
          continue;
        }
        if io.CreateFails? { return None, i + 1; }
        files := files[path := data];
        if !io.Works? {
          files := files - {path};
          assert files == old(files);
          return None, i + 1;
        }
        return Some(path), i + 1;
      }
    }

    /** The scoped case of SaveFilesToDisk. `generated` are the names made up for attachments
        whose own name sanitizes to nothing, `source` tells which attachment a path is for. */
    method SaveFiles(attachments: seq<Attachment>, generated: seq<string>, io: seq<Io>)
        returns (paths: seq<string>, ghost source: seq<nat>)
      requires |generated| == |attachments| == |io| && forall i :: 0 <= i < |generated| ==> generated[i] != ""
      modifies this
      ensures source == Saved(io) && AllStored(old(files), files, attachments, paths, source)
      ensures forall k :: 0 <= k < |paths| ==>
          source[k] < |attachments| && NamedBy(paths[k], NameFor(attachments[source[k]], generated[source[k]]))
    {
      hide Sanitize, Candidate, Target, Exists, AllStored;
      paths, source := [], [];
      NothingStored(files, attachments);
      var i := 0;
      while i < |attachments|
        invariant i <= |attachments| && source == Saved(io[..i]) && |source| == |paths|
        invariant AllStored(old(files), files, attachments, paths, source)
        invariant forall k :: 0 <= k < |paths| ==>
          source[k] < |attachments| && NamedBy(paths[k], NameFor(attachments[source[k]], generated[source[k]]))
      {
        var name := Sanitize(attachments[i].fileName);
        if name == "" {
          name := generated[i];
        }
        ghost var before := files;
        var saved, tries := WriteUnique(name, attachments[i].data, io[i]);
        assert io[..i + 1][..i] == io[..i];
        if saved.Some? {
          assert NamedBy(saved.value, name);
          OneMoreStored(old(files), before, attachments, paths, source, saved.value, i);
          paths := paths + [saved.value];
          source := source + [i];
        }
        i := i + 1;
      }
      assert io[..i] == io;
    }
  }

  /** The name an attachment is saved under: what sanitizing leaves of the sender's, or the one
      made up for it if that is nothing. */
  function NameFor(a: Attachment, generated: string): string {
    if Sanitize(a.fileName) != "" then Sanitize(a.fileName) else generated
  }

  /** The path is one of the candidates of the name. */
  ghost predicate NamedBy(path: string, name: string) {
    exists n: nat :: path == Target(Candidate(name, n))
  }

  /** The saved paths are new and distinct, each holds its own attachment's bytes, and apart
      from them the directory is as before. */
  ghost predicate AllStored(before: map<string, Bytes>, after: map<string, Bytes>,
                            attachments: seq<Attachment>, paths: seq<string>, source: seq<nat>) {
    && |source| == |paths|
    && (forall k :: 0 <= k < |paths| ==> !Exists(before, paths[k]) && paths[k] in after)
    && (forall k :: 0 <= k < |paths| ==> source[k] < |attachments| && after[paths[k]] == attachments[source[k]].data)
    && (forall j, k :: 0 <= j < k < |paths| ==> paths[j] != paths[k])
    && (forall x :: x in after <==> x in before || x in paths)
    && (forall x :: x in before ==> after[x] == before[x])
  }

  lemma NothingStored(files: map<string, Bytes>, attachments: seq<Attachment>)
    ensures AllStored(files, files, attachments, [], [])
  {
  }

  lemma OneMoreStored(before: map<string, Bytes>, after: map<string, Bytes>, attachments: seq<Attachment>,
                      paths: seq<string>, source: seq<nat>, path: string, i: nat)
    requires AllStored(before, after, attachments, paths, source) && i < |attachments| && !Exists(after, path)
    ensures AllStored(before, after[path := attachments[i].data], attachments, paths + [path], source + [i])
  {
  }

  /** The positions at which the file system works. */
  ghost function Saved(io: seq<Io>): seq<nat> {
    if io == [] then [] else Saved(io[..|io| - 1]) + if io[|io| - 1].Works? then [|io| - 1] else []
  }
}
