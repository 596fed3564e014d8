/**
 * A JavaScript object used as a dictionary from file path to file content
 * (`{ [path: string]: string }`). Its keys keep insertion order: assigning
 * to a key that is already present changes the value in place, a new key
 * goes to the end. Integer-like keys, which JavaScript enumerates first,
 * are not distinguished.
 */
module FileMap {
  import opened Common

  datatype Entry = Entry(path: string, content: string)

  type Files = seq<Entry>

  /** `Object.keys(files)`, in enumeration order. */
  function Paths(f: Files): (ps: seq<string>)
    ensures |ps| == |f|
  {
    if f == [] then [] else [f[0].path] + Paths(f[1..])
  }

  lemma {:induction false} PathsAt(f: Files, i: nat)
    requires i < |f|
    ensures Paths(f)[i] == f[i].path
  {
    if i > 0 {
      PathsAt(f[1..], i - 1);
    }
  }

  /** No key is listed twice. */
  ghost predicate UniquePaths(f: Files)
  {
    forall i, j :: 0 <= i < j < |f| ==> f[i].path != f[j].path
  }

  /** `files[p]`, or `None` for `undefined`. */
  function Get(f: Files, p: string): (r: Option<string>)
    ensures r.Some? <==> p in Paths(f)
  {
    if f == [] then None
    else if f[0].path == p then Some(f[0].content)
    else Get(f[1..], p)
  }

  /** `files[p] = c`: overwrite in place, or append a new key. */
  function Put(f: Files, p: string, c: string): (r: Files)
    ensures Get(r, p) == Some(c)
    ensures forall q :: q != p ==> Get(r, q) == Get(f, q)
  {
    if f == [] then [Entry(p, c)]
    else if f[0].path == p then [Entry(p, c)] + f[1..]
    else [f[0]] + Put(f[1..], p, c)
  }

  /** An assignment keeps the keys in place; a new key comes last. */
  lemma {:induction false} PutPaths(f: Files, p: string, c: string)
    ensures Paths(Put(f, p, c)) == if p in Paths(f) then Paths(f) else Paths(f) + [p]
  {
    if f == [] {
    } else if f[0].path == p {
      assert Paths(Put(f, p, c)) == [p] + Paths(f[1..]);
      assert Paths(f) == [p] + Paths(f[1..]);
    } else {
      PutPaths(f[1..], p, c);
      assert Paths(Put(f, p, c)) == [f[0].path] + Paths(Put(f[1..], p, c));
      assert Paths(f) == [f[0].path] + Paths(f[1..]);
      assert p in Paths(f) <==> p in Paths(f[1..]);
    }
  }

  /** An assignment never lists a key twice. */
  lemma PutUnique(f: Files, p: string, c: string)
    requires UniquePaths(f)
    ensures UniquePaths(Put(f, p, c))
  {
    PutPaths(f, p, c);
    var r := Put(f, p, c);
    forall i, j | 0 <= i < j < |r| ensures r[i].path != r[j].path {
      PathsAt(r, i);
      PathsAt(r, j);
      PathsAt(f, i);
      if j == |f| {
        assert p !in Paths(f);
        assert Paths(r)[i] == Paths(f)[i];
      } else {
        PathsAt(f, j);
        assert Paths(r)[i] == Paths(f)[i] && Paths(r)[j] == Paths(f)[j];
      }
    }
  }

  /** Assigns each entry in turn, as a `for` loop over `entries` does. */
  function PutAll(f: Files, entries: seq<Entry>): Files
  {
    if entries == [] then f
    else
      var last := entries[|entries| - 1];
      Put(PutAll(f, entries[..|entries| - 1]), last.path, last.content)
  }

  /** The content of the last entry for `p`, if any. */
  function LastFor(entries: seq<Entry>, p: string): Option<string>
  {
    if entries == [] then None
    else if entries[|entries| - 1].path == p then Some(entries[|entries| - 1].content)
    else LastFor(entries[..|entries| - 1], p)
  }

  /** The same assignments on a plain map (a sandbox's file system). */
  function WriteAll(fs: map<string, string>, entries: seq<Entry>): map<string, string>
  {
    if entries == [] then fs
    else
      var last := entries[|entries| - 1];
      WriteAll(fs, entries[..|entries| - 1])[last.path := last.content]
  }

  // ---------------------------------------------------------------- lemmas

  /** One more entry of a series is one more assignment, to the map and to the file system alike. */
  lemma NextEntry(f: Files, fs: map<string, string>, entries: seq<Entry>, i: nat)
    requires i < |entries|
    ensures PutAll(f, entries[..i + 1]) == Put(PutAll(f, entries[..i]), entries[i].path, entries[i].content)
    ensures WriteAll(fs, entries[..i + 1]) == WriteAll(fs, entries[..i])[entries[i].path := entries[i].content]
  {
    assert entries[..i + 1][..i] == entries[..i];
  }

  /** After a series of assignments, a key holds its last assigned value; keys never assigned are untouched. */
  lemma {:induction false} PutAllGet(f: Files, entries: seq<Entry>, q: string)
    ensures Get(PutAll(f, entries), q) == match LastFor(entries, q) case Some(c) => Some(c) case None => Get(f, q)
  {
    if entries != [] {
      PutAllGet(f, entries[..|entries| - 1], q);
    }
  }

  lemma {:induction false} WriteAllGet(fs: map<string, string>, entries: seq<Entry>, q: string)
    ensures q in WriteAll(fs, entries) <==> LastFor(entries, q).Some? || q in fs
    ensures q in WriteAll(fs, entries) ==>
      WriteAll(fs, entries)[q] == match LastFor(entries, q) case Some(c) => c case None => fs[q]
  {
    if entries != [] {
      WriteAllGet(fs, entries[..|entries| - 1], q);
    }
  }

  /** Assignments never remove keys and keep the order of the keys already there. */
  lemma {:induction false} PutAllPaths(f: Files, entries: seq<Entry>)
    ensures |Paths(PutAll(f, entries))| >= |Paths(f)|
    ensures Paths(PutAll(f, entries))[..|f|] == Paths(f)
    ensures UniquePaths(f) ==> UniquePaths(PutAll(f, entries))
  {
    if entries != [] {
      var last := entries[|entries| - 1];
      PutAllPaths(f, entries[..|entries| - 1]);
      PutPaths(PutAll(f, entries[..|entries| - 1]), last.path, last.content);
      if UniquePaths(f) {
        PutUnique(PutAll(f, entries[..|entries| - 1]), last.path, last.content);
      }
    }
  }

  /** The key set is empty only when it was empty and nothing was assigned. */
  lemma {:induction false} PutAllEmpty(f: Files, entries: seq<Entry>)
    ensures |PutAll(f, entries)| == 0 <==> |f| == 0 && |entries| == 0
  {
    if entries != [] {
      var last := entries[|entries| - 1];
      assert Get(PutAll(f, entries), last.path).Some?;
    }
  }

  /** The assignment of a path listed twice in one call ends with the second content. */
  lemma LaterDuplicateWins(f: Files, fs: map<string, string>, p: string, first: string, second: string)
    ensures Get(PutAll(f, [Entry(p, first), Entry(p, second)]), p) == Some(second)
    ensures WriteAll(fs, [Entry(p, first), Entry(p, second)])[p] == second
  {
    var es := [Entry(p, first), Entry(p, second)];
    PutAllGet(f, es, p);
    WriteAllGet(fs, es, p);
  }
}
