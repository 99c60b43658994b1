/** Sizes and link counts of inodes: what every directory operation keeps, and a cancelled one restores. */
module Directory {
  import opened Arith
  import opened UbifsMedia
  import opened Wrappers

  datatype Inode = Inode(isDir: bool, size: int, nlink: int)

  /** A directory entry; isDir is the type that is recorded in it. */
  datatype Entry = Entry(dir: nat, name: string, target: nat, isDir: bool)

  datatype Errno = Ok | NoSpace | NotEmpty | Failed

  const ROOT_INO := 1

  /** CALC_DENT_SIZE: header, name and final NUL, in units of eight bytes. */
  function DentSize(name: string): (r: nat)
    ensures r % 8 == 0 && DENT_NODE_SZ + |name| < r <= DENT_NODE_SZ + |name| + 8
  {
    AlignUp(DENT_NODE_SZ + |name| + 1, 8)
  }

  function Sum(es: seq<Entry>, f: Entry -> nat): nat {
    if es == [] then 0 else f(es[0]) + Sum(es[1..], f)
  }

  lemma {:induction false} SumOfBoth(a: seq<Entry>, b: seq<Entry>, f: Entry -> nat)
    ensures Sum(a + b, f) == Sum(a, f) + Sum(b, f)
  {
    if a == [] {
      assert a + b == b;
    } else {
      assert (a + b)[1..] == a[1..] + b;
      SumOfBoth(a[1..], b, f);
    }
  }

  lemma {:induction false} SumCovers(es: seq<Entry>, f: Entry -> nat, i: nat)
    requires i < |es|
    ensures f(es[i]) <= Sum(es, f)
  {
    if i > 0 {
      SumCovers(es[1..], f, i - 1);
    }
  }

  lemma {:induction false} SumOfNone(es: seq<Entry>, f: Entry -> nat)
    requires forall e :: e in es ==> f(e) == 0
    ensures Sum(es, f) == 0
  {
    if es != [] {
      SumOfNone(es[1..], f);
    }
  }

  lemma {:induction false} SumWithout(es: seq<Entry>, f: Entry -> nat, i: nat)
    requires i < |es|
    ensures Sum(es, f) == f(es[i]) + Sum(RemoveAt(es, i), f)
  {
    if i == 0 {
      assert RemoveAt(es, 0) == es[1..];
    } else {
      SumWithout(es[1..], f, i - 1);
      var r := RemoveAt(es, i);
      assert r[0] == es[0];
      assert r[1..] == RemoveAt(es[1..], i - 1);
    }
  }

  lemma SumOfOne(e: Entry, f: Entry -> nat)
    ensures Sum([e], f) == f(e)
  {
    assert [e][1..] == [];
  }

  lemma SumWith(es: seq<Entry>, f: Entry -> nat, e: Entry)
    ensures Sum(es + [e], f) == Sum(es, f) + f(e)
  {
    SumOfBoth(es, [e], f);
    SumOfOne(e, f);
  }

  function SizeIn(d: nat): Entry -> nat { (e: Entry) => if e.dir == d then DentSize(e.name) else 0 }
  function SubdirIn(d: nat): Entry -> nat { (e: Entry) => if e.dir == d && e.isDir then 1 else 0 }
  function RefersTo(t: nat): Entry -> nat { (e: Entry) => if e.target == t then 1 else 0 }

  /** What the debugging checks of UBIFS compute: a directory is as large as its entries, and counts its
      sub-directories; a directory has one entry that names it, but for the root; a file counts the
      entries that name it. A directory that was removed is empty. */
  predicate InodeOk(es: seq<Entry>, d: nat, i: Inode) {
    if i.isDir then
      && i.size == INO_NODE_SZ + Sum(es, SizeIn(d))
      && i.nlink == (if d == ROOT_INO || Sum(es, RefersTo(d)) > 0 then 2 + Sum(es, SubdirIn(d)) else 0)
      && Sum(es, RefersTo(d)) <= if d == ROOT_INO then 0 else 1
    else
      i.nlink == Sum(es, RefersTo(d))
  }

  predicate IsLiveDir(inodes: map<nat, Inode>, d: nat) {
    d in inodes && inodes[d].isDir && inodes[d].nlink > 0
  }

  predicate EntryOk(inodes: map<nat, Inode>, e: Entry) {
    IsLiveDir(inodes, e.dir) && e.target in inodes && e.isDir == inodes[e.target].isDir
  }

  predicate NamesDiffer(es: seq<Entry>) {
    forall i, j :: 0 <= i < j < |es| ==> es[i].dir != es[j].dir || es[i].name != es[j].name
  }

  predicate Consistent(inodes: map<nat, Inode>, es: seq<Entry>) {
    && ROOT_INO in inodes && inodes[ROOT_INO].isDir && NamesDiffer(es)
    && (forall e :: e in es ==> EntryOk(inodes, e))
    && (forall d :: d in inodes ==> InodeOk(es, d, inodes[d]))
  }

  predicate NoEntry(es: seq<Entry>, d: nat, name: string) {
    forall e :: e in es ==> e.dir != d || e.name != name
  }

  function Lookup(es: seq<Entry>, d: nat, name: string): (r: int)
    ensures if r == -1 then NoEntry(es, d, name) else 0 <= r < |es| && es[r].dir == d && es[r].name == name
  {
    if es == [] then -1
    else if es[0].dir == d && es[0].name == name then 0
    else
      var r := Lookup(es[1..], d, name);
      assert es == [es[0]] + es[1..];
      if r == -1 then -1 else r + 1
  }

  lemma SumsWith(es: seq<Entry>, e: Entry, d: nat)
    ensures Sum(es + [e], SizeIn(d)) == Sum(es, SizeIn(d)) + if e.dir == d then DentSize(e.name) else 0
    ensures Sum(es + [e], SubdirIn(d)) == Sum(es, SubdirIn(d)) + if e.dir == d && e.isDir then 1 else 0
    ensures Sum(es + [e], RefersTo(d)) == Sum(es, RefersTo(d)) + if e.target == d then 1 else 0
  {
    hide DentSize;
    SumWith(es, SizeIn(d), e);
    SumWith(es, SubdirIn(d), e);
    SumWith(es, RefersTo(d), e);
  }

  lemma SumsWithout(es: seq<Entry>, i: nat, d: nat)
    requires i < |es|
    ensures Sum(es, SizeIn(d)) == Sum(RemoveAt(es, i), SizeIn(d)) + if es[i].dir == d then DentSize(es[i].name) else 0
    ensures Sum(es, SubdirIn(d)) == Sum(RemoveAt(es, i), SubdirIn(d)) + if es[i].dir == d && es[i].isDir then 1 else 0
    ensures Sum(es, RefersTo(d)) == Sum(RemoveAt(es, i), RefersTo(d)) + if es[i].target == d then 1 else 0
  {
    hide DentSize;
    SumWithout(es, SizeIn(d), i);
    SumWithout(es, SubdirIn(d), i);
    SumWithout(es, RefersTo(d), i);
  }

  lemma NamesWithout(es: seq<Entry>, i: nat)
    requires i < |es| && NamesDiffer(es)
    ensures NamesDiffer(RemoveAt(es, i)) && NoEntry(RemoveAt(es, i), es[i].dir, es[i].name)
    ensures forall e :: e in RemoveAt(es, i) ==> e in es
  {
    hide DentSize;
    var r := RemoveAt(es, i);
    forall k | 0 <= k < |r| ensures r[k] == es[if k < i then k else k + 1] {
    }
  }

  lemma NamesWith(es: seq<Entry>, e: Entry)
    requires NamesDiffer(es) && NoEntry(es, e.dir, e.name)
    ensures NamesDiffer(es + [e])
  {
    hide DentSize;
    forall k | 0 <= k < |es| ensures es[k].dir != e.dir || es[k].name != e.name {
      assert es[k] in es;
    }
  }

  /** Nothing is listed in an inode that is not a live directory, and nothing refers to one that is not
      there. */
  lemma Unlisted(inodes: map<nat, Inode>, es: seq<Entry>, d: nat)
    requires Consistent(inodes, es)
    ensures !IsLiveDir(inodes, d) ==> Sum(es, SizeIn(d)) == 0 && Sum(es, SubdirIn(d)) == 0
    ensures d !in inodes ==> Sum(es, RefersTo(d)) == 0
  {
    hide DentSize;
    if !IsLiveDir(inodes, d) {
      forall e | e in es ensures e.dir != d {
        assert EntryOk(inodes, e);
      }
      SumOfNone(es, SizeIn(d));
      SumOfNone(es, SubdirIn(d));
    }
    if d !in inodes {
      forall e | e in es ensures e.target != d {
        assert EntryOk(inodes, e);
      }
      SumOfNone(es, RefersTo(d));
    }
  }

  function Sized(inodes: map<nat, Inode>, d: nat, n: int): map<nat, Inode>
    requires d in inodes
  {
    inodes[d := inodes[d].(size := inodes[d].size + n)]
  }

  function Linked(inodes: map<nat, Inode>, d: nat, n: int): map<nat, Inode>
    requires d in inodes
  {
    inodes[d := inodes[d].(nlink := inodes[d].nlink + n)]
  }

  lemma SizedBack(inodes: map<nat, Inode>, d: nat, n: int)
    requires d in inodes
    ensures Sized(Sized(inodes, d, n), d, 0 - n) == inodes && Linked(Linked(inodes, d, n), d, 0 - n) == inodes
  {
    hide DentSize;
    assert Sized(Sized(inodes, d, n), d, 0 - n)[d] == inodes[d];
    assert Linked(Linked(inodes, d, n), d, 0 - n)[d] == inodes[d];
  }

  // --- the effect of the operations on values ---

  /** A new inode with an entry in dir. */
  lemma MadeInode(inodes: map<nat, Inode>, es: seq<Entry>, inodes': map<nat, Inode>, dir: nat, name: string, ino: nat, isDir: bool, d: nat)
    requires Consistent(inodes, es) && IsLiveDir(inodes, dir) && NoEntry(es, dir, name) && ino !in inodes
    requires inodes' == Linked(Sized(inodes, dir, DentSize(name)), dir, if isDir then 1 else 0)
                        [ino := Inode(isDir, if isDir then INO_NODE_SZ else 0, if isDir then 2 else 1)]
    requires d in inodes'
    ensures InodeOk(es + [Entry(dir, name, ino, isDir)], d, inodes'[d])
  {
    hide DentSize;
    Unlisted(inodes, es, ino);
    assert d in inodes ==> InodeOk(es, d, inodes[d]);
    hide Sum, Consistent, NoEntry;
    SumsWith(es, Entry(dir, name, ino, isDir), d);
  }

  lemma AfterMake(inodes: map<nat, Inode>, es: seq<Entry>, inodes': map<nat, Inode>, dir: nat, name: string, ino: nat, isDir: bool)
    requires Consistent(inodes, es) && IsLiveDir(inodes, dir) && NoEntry(es, dir, name) && ino !in inodes
    requires inodes' == Linked(Sized(inodes, dir, DentSize(name)), dir, if isDir then 1 else 0)
                        [ino := Inode(isDir, if isDir then INO_NODE_SZ else 0, if isDir then 2 else 1)]
    ensures Consistent(inodes', es + [Entry(dir, name, ino, isDir)])
  {
    hide DentSize, Sum, InodeOk;
    var e := Entry(dir, name, ino, isDir);
    NamesWith(es, e);
    forall d | d in inodes' ensures InodeOk(es + [e], d, inodes'[d]) {
      MadeInode(inodes, es, inodes', dir, name, ino, isDir, d);
    }
    assert ino !in inodes ==> ino != ROOT_INO;
    forall x | x in es + [e] ensures EntryOk(inodes', x) {
      assert x in es ==> EntryOk(inodes, x);
    }
  }

  /** Another entry for a file. */
  lemma AfterLink(inodes: map<nat, Inode>, es: seq<Entry>, inodes': map<nat, Inode>, dir: nat, name: string, ino: nat)
    requires Consistent(inodes, es) && IsLiveDir(inodes, dir) && NoEntry(es, dir, name) && ino in inodes && !inodes[ino].isDir
    requires inodes' == Sized(Linked(inodes, ino, 1), dir, DentSize(name))
    ensures Consistent(inodes', es + [Entry(dir, name, ino, false)])
  {
    hide DentSize;
    var e := Entry(dir, name, ino, false);
    NamesWith(es, e);
    hide Sum, DentSize;
    forall d | d in inodes' ensures InodeOk(es + [e], d, inodes'[d]) {
      SumsWith(es, e, d);
      assert InodeOk(es, d, inodes[d]);
    }
    forall x | x in es + [e] ensures EntryOk(inodes', x) {
      assert x in es ==> EntryOk(inodes, x);
    }
  }

  /** The entry of a file is removed. */
  lemma AfterUnlink(inodes: map<nat, Inode>, es: seq<Entry>, inodes': map<nat, Inode>, i: nat)
    requires Consistent(inodes, es) && i < |es| && !es[i].isDir && EntryOk(inodes, es[i])
    requires inodes' == Sized(Linked(inodes, es[i].target, -1), es[i].dir, 0 - DentSize(es[i].name))
    ensures Consistent(inodes', RemoveAt(es, i))
  {
    hide DentSize, Sum, RemoveAt, NamesDiffer;
    NamesWithout(es, i);
    forall d | d in inodes' ensures InodeOk(RemoveAt(es, i), d, inodes'[d]) {
      UnlinkedInode(inodes, es, inodes', i, d);
    }
    hide InodeOk;
    forall x | x in RemoveAt(es, i) ensures EntryOk(inodes', x) {
      assert EntryOk(inodes, x);
    }
  }

  lemma UnlinkedInode(inodes: map<nat, Inode>, es: seq<Entry>, inodes': map<nat, Inode>, i: nat, d: nat)
    requires d in inodes && InodeOk(es, d, inodes[d]) && i < |es| && !es[i].isDir && EntryOk(inodes, es[i])
    requires inodes' == Sized(Linked(inodes, es[i].target, -1), es[i].dir, 0 - DentSize(es[i].name))
    ensures d in inodes' && InodeOk(RemoveAt(es, i), d, inodes'[d])
  {
    hide DentSize, Sum, RemoveAt;
    SumsWithout(es, i, d);
  }

  predicate IsEmptyDir(es: seq<Entry>, d: nat) {
    forall e :: e in es ==> e.dir != d
  }

  /** An empty directory has two links and no size of its own. */
  lemma EmptyHasTwoLinks(inodes: map<nat, Inode>, es: seq<Entry>, i: nat)
    requires Consistent(inodes, es) && i < |es| && es[i].isDir && IsEmptyDir(es, es[i].target)
    ensures es[i].target in inodes && inodes[es[i].target].nlink == 2 && inodes[es[i].target].isDir && es[i].target != ROOT_INO
    ensures Sum(es, RefersTo(es[i].target)) == 1 && es[i].dir != es[i].target
  {
    hide DentSize;
    var t := es[i].target;
    assert es[i] in es;
    assert EntryOk(inodes, es[i]);
    SumOfNone(es, SizeIn(t));
    SumOfNone(es, SubdirIn(t));
    SumCovers(es, RefersTo(t), i);
    assert InodeOk(es, t, inodes[t]);
  }

  /** The other entries are in live directories as before. */
  lemma RemovedKeepEntries(inodes: map<nat, Inode>, es: seq<Entry>, inodes': map<nat, Inode>, i: nat, x: Entry)
    requires Consistent(inodes, es) && i < |es| && es[i].isDir && EntryOk(inodes, es[i]) && IsEmptyDir(es, es[i].target)
    requires var t := es[i].target;
             inodes' == Sized(Linked(inodes[t := inodes[t].(nlink := 0)], es[i].dir, -1), es[i].dir, 0 - DentSize(es[i].name))
    requires x in RemoveAt(es, i) && x.dir in inodes' && InodeOk(RemoveAt(es, i), x.dir, inodes'[x.dir])
    ensures EntryOk(inodes', x)
  {
    hide DentSize;
    assert x in es && EntryOk(inodes, x);
    RemovedElsewhere(inodes, es, i, x.dir);
    hide Sum, DentSize, InodeOk, Consistent, NamesDiffer, RemoveAt;
    LiveHasLinks(RemoveAt(es, i), x.dir, inodes'[x.dir]);
  }

  /** The entry of an empty directory is removed, and its link count cleared. */
  lemma AfterRmdir(inodes: map<nat, Inode>, es: seq<Entry>, inodes': map<nat, Inode>, i: nat)
    requires Consistent(inodes, es) && i < |es| && es[i].isDir && EntryOk(inodes, es[i]) && IsEmptyDir(es, es[i].target)
    requires var t := es[i].target;
             inodes' == Sized(Linked(inodes[t := inodes[t].(nlink := 0)], es[i].dir, -1), es[i].dir, 0 - DentSize(es[i].name))
    ensures Consistent(inodes', RemoveAt(es, i))
  {
    hide DentSize, Sum, InodeOk;
    NamesWithout(es, i);
    RemovedKeepInodes(inodes, es, inodes', i);
    forall x | x in RemoveAt(es, i) ensures EntryOk(inodes', x) {
      assert x in es && EntryOk(inodes, x);
      RemovedKeepEntries(inodes, es, inodes', i, x);
    }
    hide RemoveAt, NamesDiffer, EntryOk, Sized, Linked, IsEmptyDir;
  }

  lemma RemovedKeepInodes(inodes: map<nat, Inode>, es: seq<Entry>, inodes': map<nat, Inode>, i: nat)
    requires Consistent(inodes, es) && i < |es| && es[i].isDir && EntryOk(inodes, es[i]) && IsEmptyDir(es, es[i].target)
    requires var t := es[i].target;
             inodes' == Sized(Linked(inodes[t := inodes[t].(nlink := 0)], es[i].dir, -1), es[i].dir, 0 - DentSize(es[i].name))
    ensures forall d :: d in inodes' ==> InodeOk(RemoveAt(es, i), d, inodes'[d])
  {
    hide DentSize;
    EmptyHasTwoLinks(inodes, es, i);
    RemovedElsewhere(inodes, es, i, es[i].dir);
    hide Sum, DentSize;
    forall d | d in inodes' ensures InodeOk(RemoveAt(es, i), d, inodes'[d]) {
      SumsWithout(es, i, d);
      assert InodeOk(es, d, inodes[d]);
      if d == es[i].target {
        EmptySums(es, d);
      }
    }
  }

  lemma EmptySums(es: seq<Entry>, d: nat)
    requires IsEmptyDir(es, d)
    ensures Sum(es, SizeIn(d)) == 0 && Sum(es, SubdirIn(d)) == 0
  {
    hide DentSize;
    SumOfNone(es, SizeIn(d));
    SumOfNone(es, SubdirIn(d));
  }

  lemma LiveHasLinks(es: seq<Entry>, d: nat, i: Inode)
    requires InodeOk(es, d, i) && i.isDir && (d == ROOT_INO || Sum(es, RefersTo(d)) > 0)
    ensures i.nlink >= 2
  {
  }

  /** Whoever lists something is the root, or still referred to by another entry. */
  lemma RemovedElsewhere(inodes: map<nat, Inode>, es: seq<Entry>, i: nat, d: nat)
    requires Consistent(inodes, es) && i < |es| && IsLiveDir(inodes, d) && d != es[i].target
    ensures d == ROOT_INO || Sum(RemoveAt(es, i), RefersTo(d)) > 0
  {
    hide DentSize;
    SumsWithout(es, i, d);
    assert InodeOk(es, d, inodes[d]);
  }

  // --- rename ---

  /** The entries without the one that is overwritten, if there is one. */
  function Cleared(es: seq<Entry>, d: nat, name: string): seq<Entry> {
    var j := Lookup(es, d, name);
    if j == -1 then es else RemoveAt(es, j)
  }

  /** The entry at i gets another directory and name. */
  function Renamed(es: seq<Entry>, i: nat, d: nat, name: string): seq<Entry>
    requires i < |es|
  {
    Cleared(RemoveAt(es, i), d, name) + [Entry(d, name, es[i].target, es[i].isDir)]
  }

  /** The inode whose entry is overwritten, or -1. */
  function Overwritten(es: seq<Entry>, d: nat, name: string): int {
    var j := Lookup(es, d, name);
    if j == -1 then -1 else es[j].target
  }

  /** What changes of an inode: x is the entry that moves, n the inode that is overwritten, or -1. */
  function SizeChange(x: Entry, n: int, newDir: nat, newName: string, d: nat): int {
    (if d == x.dir then 0 - DentSize(x.name) else 0) + (if n == -1 && d == newDir then DentSize(newName) else 0)
  }

  function LinkChange(x: Entry, n: int, newDir: nat, d: nat): int {
    (if x.isDir && d == x.dir && (newDir != x.dir || n != -1) then -1 else 0)
    + (if x.isDir && d == newDir && newDir != x.dir && n == -1 then 1 else 0)
    - (if n == d then if x.isDir then 2 else 1 else 0)
  }

  predicate RenameEffect(inodes: map<nat, Inode>, inodes': map<nat, Inode>, x: Entry, n: int, newDir: nat, newName: string) {
    && inodes'.Keys == inodes.Keys
    && forall d :: d in inodes ==>
         inodes'[d] == Inode(inodes[d].isDir, inodes[d].size + SizeChange(x, n, newDir, newName, d), inodes[d].nlink + LinkChange(x, n, newDir, d))
  }

  /** What the VFS sees to: the entry exists, the new name is another one, and what is overwritten is
      another inode of the same kind. */
  predicate MayRename(inodes: map<nat, Inode>, es: seq<Entry>, i: nat, newDir: nat, newName: string) {
    && i < |es| && IsLiveDir(inodes, newDir) && (newDir != es[i].dir || newName != es[i].name)
    && var j := Lookup(es, newDir, newName); j != -1 ==> es[j].target != es[i].target && es[j].isDir == es[i].isDir
  }

  lemma ClearedSums(es: seq<Entry>, name: string, newDir: nat, d: nat)
    ensures var j, r := Lookup(es, newDir, name), Cleared(es, newDir, name);
            && Sum(r, SizeIn(d)) == Sum(es, SizeIn(d)) - (if j != -1 && d == newDir then DentSize(name) else 0)
            && Sum(r, SubdirIn(d)) == Sum(es, SubdirIn(d)) - (if j != -1 && d == newDir && es[j].isDir then 1 else 0)
            && Sum(r, RefersTo(d)) == Sum(es, RefersTo(d)) - (if j != -1 && es[j].target == d then 1 else 0)
  {
    hide DentSize;
    var j := Lookup(es, newDir, name);
    if j != -1 {
      SumsWithout(es, j, d);
    }
  }

  /** Taking out the old entry does not hide the one that is overwritten. */
  lemma SameOverwritten(es: seq<Entry>, i: nat, d: nat, name: string)
    requires i < |es| && NamesDiffer(es) && (d != es[i].dir || name != es[i].name)
    ensures Overwritten(RemoveAt(es, i), d, name) == Overwritten(es, d, name)
    ensures var j, k := Lookup(es, d, name), Lookup(RemoveAt(es, i), d, name);
            (j == -1 <==> k == -1) && (j != -1 ==> RemoveAt(es, i)[k] == es[j])
  {
    hide DentSize;
    var r := RemoveAt(es, i);
    var j, k := Lookup(es, d, name), Lookup(r, d, name);
    assert forall e :: e in r ==> e in es;
    if j != -1 {
      assert j != i;
      assert r[if j < i then j else j - 1] == es[j];
      assert k != -1;
      var k' := if k < i then k else k + 1;
      assert es[k'] == r[k];
      assert k' == j;
    }
  }

  /** All sums after a rename. */
  lemma RenamedSums(es: seq<Entry>, i: nat, newDir: nat, newName: string, d: nat)
    requires i < |es| && NamesDiffer(es) && (newDir != es[i].dir || newName != es[i].name)
    requires var j := Lookup(es, newDir, newName); j != -1 ==> es[j].isDir == es[i].isDir
    ensures var x, n, r := es[i], Overwritten(es, newDir, newName), Renamed(es, i, newDir, newName);
            && Sum(r, SizeIn(d)) == Sum(es, SizeIn(d)) + SizeChange(x, n, newDir, newName, d)
            && Sum(r, SubdirIn(d)) == Sum(es, SubdirIn(d)) + LinkChange(x, n, newDir, d) + (if n == d then if x.isDir then 2 else 1 else 0)
            && Sum(r, RefersTo(d)) == Sum(es, RefersTo(d)) - (if n == d then 1 else 0)
  {
    hide *;
    var x, e, es1 := es[i], Entry(newDir, newName, es[i].target, es[i].isDir), RemoveAt(es, i);
    var j, k, n := Lookup(es, newDir, newName), Lookup(es1, newDir, newName), Overwritten(es, newDir, newName);
    SumsWithout(es, i, d);
    SameOverwritten(es, i, newDir, newName);
    ClearedSums(es1, newName, newDir, d);
    SumsWith(Cleared(es1, newDir, newName), e, d);
    RenamedIs(es, i, newDir, newName);
    Changes(x, n, newDir, newName, d);
  }

  lemma RenamedIs(es: seq<Entry>, i: nat, d: nat, name: string)
    requires i < |es|
    ensures Renamed(es, i, d, name) == Cleared(RemoveAt(es, i), d, name) + [Entry(d, name, es[i].target, es[i].isDir)]
    ensures Overwritten(es, d, name) == (if Lookup(es, d, name) == -1 then -1 else es[Lookup(es, d, name)].target)
  {
    hide DentSize, Sum;
  }

  lemma Changes(x: Entry, n: int, newDir: nat, newName: string, d: nat)
    ensures SizeChange(x, n, newDir, newName, d) == (if d == x.dir then 0 - DentSize(x.name) else 0) + (if n == -1 && d == newDir then DentSize(newName) else 0)
    ensures n == -1 ==> LinkChange(x, n, newDir, d) == (if x.isDir && d == newDir then 1 else 0) - (if x.isDir && d == x.dir then 1 else 0)
    ensures n != -1 ==> LinkChange(x, n, newDir, d) == (if x.isDir && d == x.dir then -1 else 0) - (if n == d then if x.isDir then 2 else 1 else 0)
  {
    hide DentSize;
  }

  lemma RenamedNames(es: seq<Entry>, i: nat, newDir: nat, newName: string)
    requires i < |es| && NamesDiffer(es)
    ensures NamesDiffer(Renamed(es, i, newDir, newName))
    ensures forall x :: x in Cleared(RemoveAt(es, i), newDir, newName) ==> x in es
  {
    hide DentSize;
    var es1 := RemoveAt(es, i);
    NamesWithout(es, i);
    var j := Lookup(es1, newDir, newName);
    if j != -1 {
      NamesWithout(es1, j);
    }
    hide NamesDiffer, Lookup;
    NamesWith(Cleared(es1, newDir, newName), Entry(newDir, newName, es[i].target, es[i].isDir));
  }

  /** One inode, given what the sums were and are. */
  lemma InodeStaysOk(es: seq<Entry>, r: seq<Entry>, x: Entry, n: int, newDir: nat, newName: string, d: nat, was: Inode, size: int, nlink: int)
    requires InodeOk(es, d, was)
    requires && Sum(r, SizeIn(d)) == Sum(es, SizeIn(d)) + SizeChange(x, n, newDir, newName, d)
             && Sum(r, SubdirIn(d)) == Sum(es, SubdirIn(d)) + LinkChange(x, n, newDir, d) + (if n == d then if x.isDir then 2 else 1 else 0)
             && Sum(r, RefersTo(d)) == Sum(es, RefersTo(d)) - (if n == d then 1 else 0)
    requires d == x.dir || d == newDir ==> was.isDir && (d == ROOT_INO || Sum(es, RefersTo(d)) > 0)
    requires n == d ==> was.isDir == x.isDir
    requires n == d && x.isDir ==> was.nlink == 2 && d != ROOT_INO && Sum(es, RefersTo(d)) == 1
                                   && Sum(es, SizeIn(d)) == 0 && Sum(es, SubdirIn(d)) == 0 && d != x.dir && d != newDir
    requires size == was.size + SizeChange(x, n, newDir, newName, d) && nlink == was.nlink + LinkChange(x, n, newDir, d)
    ensures InodeOk(r, d, Inode(was.isDir, size, nlink))
  {
    hide Sum, DentSize, SizeChange;
  }

  lemma RenamedInodes(inodes: map<nat, Inode>, es: seq<Entry>, inodes': map<nat, Inode>, i: nat, newDir: nat, newName: string, d: nat)
    requires Consistent(inodes, es) && MayRename(inodes, es, i, newDir, newName) && d in inodes
    requires var n := Overwritten(es, newDir, newName);
             RenameEffect(inodes, inodes', es[i], n, newDir, newName) && (es[i].isDir && n != -1 ==> IsEmptyDir(es, n))
    ensures InodeOk(Renamed(es, i, newDir, newName), d, inodes'[d])
  {
    hide Sum, DentSize, SizeChange, LinkChange, InodeOk, IsEmptyDir;
    var x, n := es[i], Overwritten(es, newDir, newName);
    RenamedSums(es, i, newDir, newName, d);
    OverwrittenLinks(inodes, es, i, newDir, newName);
    assert x in es && EntryOk(inodes, x) && InodeOk(es, d, inodes[d]);
    if d == newDir || d == x.dir {
      NotMovedInto(inodes, es, d);
    }
    hide Consistent, MayRename, NamesDiffer, Overwritten, Renamed, EntryOk;
    InodeStaysOk(es, Renamed(es, i, newDir, newName), x, n, newDir, newName, d, inodes[d], inodes'[d].size, inodes'[d].nlink);
    assert inodes'[d] == Inode(inodes[d].isDir, inodes'[d].size, inodes'[d].nlink);
  }

  /** The inode that is overwritten is of the kind of the one that takes its place; a directory is empty,
      and has its two links. */
  lemma OverwrittenLinks(inodes: map<nat, Inode>, es: seq<Entry>, i: nat, newDir: nat, newName: string)
    requires Consistent(inodes, es) && MayRename(inodes, es, i, newDir, newName)
    requires var n := Overwritten(es, newDir, newName); es[i].isDir && n != -1 ==> IsEmptyDir(es, n)
    ensures var n := Overwritten(es, newDir, newName);
            n != -1 ==> n in inodes && inodes[n].isDir == es[i].isDir && Sum(es, RefersTo(n)) >= 1
    ensures var n := Overwritten(es, newDir, newName);
            n != -1 && es[i].isDir ==> && inodes[n].nlink == 2 && n != ROOT_INO && Sum(es, RefersTo(n)) == 1
                                       && Sum(es, SizeIn(n)) == 0 && Sum(es, SubdirIn(n)) == 0 && n != es[i].dir && n != newDir
  {
    hide DentSize;
    var n, j := Overwritten(es, newDir, newName), Lookup(es, newDir, newName);
    if j != -1 {
      assert es[j] in es && EntryOk(inodes, es[j]);
      SumCovers(es, RefersTo(n), j);
      if es[i].isDir {
        EmptyHasTwoLinks(inodes, es, j);
        EmptySums(es, n);
        EmptyIsNotListed(es, i, n);
      }
    }
  }

  lemma EmptyIsNotListed(es: seq<Entry>, i: nat, n: int)
    requires i < |es| && n >= 0 && IsEmptyDir(es, n)
    ensures es[i].dir != n
  {
    hide DentSize;
    assert es[i] in es;
  }

  /** A live directory is the root or referred to. */
  lemma NotMovedInto(inodes: map<nat, Inode>, es: seq<Entry>, d: nat)
    requires Consistent(inodes, es) && IsLiveDir(inodes, d)
    ensures d == ROOT_INO || Sum(es, RefersTo(d)) > 0
  {
    hide DentSize;
    assert InodeOk(es, d, inodes[d]);
  }

  lemma AfterRename(inodes: map<nat, Inode>, es: seq<Entry>, inodes': map<nat, Inode>, i: nat, newDir: nat, newName: string)
    requires Consistent(inodes, es) && MayRename(inodes, es, i, newDir, newName)
    requires var n := Overwritten(es, newDir, newName);
             RenameEffect(inodes, inodes', es[i], n, newDir, newName) && (es[i].isDir && n != -1 ==> IsEmptyDir(es, n))
    ensures Consistent(inodes', Renamed(es, i, newDir, newName))
  {
    hide DentSize;
    var r := Renamed(es, i, newDir, newName);
    RenamedNames(es, i, newDir, newName);
    forall d | d in inodes' ensures InodeOk(r, d, inodes'[d]) {
      RenamedInodes(inodes, es, inodes', i, newDir, newName, d);
    }
    assert es[i] in es;
    forall x | x in r ensures EntryOk(inodes', x) {
      RenamedListed(inodes, es, inodes', i, newDir, newName, x);
    }
  }

  /** Every entry is still in a live directory. */
  lemma RenamedListed(inodes: map<nat, Inode>, es: seq<Entry>, inodes': map<nat, Inode>, i: nat, newDir: nat, newName: string, x: Entry)
    requires Consistent(inodes, es) && MayRename(inodes, es, i, newDir, newName) && x in Renamed(es, i, newDir, newName)
    requires var n := Overwritten(es, newDir, newName);
             RenameEffect(inodes, inodes', es[i], n, newDir, newName) && (es[i].isDir && n != -1 ==> IsEmptyDir(es, n))
    ensures EntryOk(inodes', x)
  {
    hide DentSize;
    var n, j := Overwritten(es, newDir, newName), Lookup(es, newDir, newName);
    RenamedNames(es, i, newDir, newName);
    assert es[i] in es && EntryOk(inodes, es[i]);
    assert x in es ==> EntryOk(inodes, x);
    NotMovedInto(inodes, es, x.dir);
    assert x.dir in inodes && x.target in inodes && es[i].target in inodes && x.isDir == inodes[x.target].isDir;
    assert n == x.dir ==> Sum(es, RefersTo(x.dir)) <= 1 by {
      if n == x.dir {
        assert InodeOk(es, n, inodes[n]);
      }
    }
    RenamedSums(es, i, newDir, newName, x.dir);
    RenamedInodes(inodes, es, inodes', i, newDir, newName, x.dir);
    hide Sum, DentSize, Overwritten, Consistent, NamesDiffer, Lookup;
  }

  // --- the operations ---

  datatype Op =
    | Create(dir: nat, name: string, ino: nat)
    | Mkdir(dir: nat, name: string, ino: nat)
    | Link(dir: nat, name: string, ino: nat)
    | Unlink(dir: nat, name: string)
    | Rmdir(dir: nat, name: string)
    | Rename(dir: nat, name: string, newDir: nat, newName: string)

  /** What fails of an operation: budgeting, or writing to the journal. */
  datatype Fault = NoFault | NoBudget(err: Errno) | InJournal

  /** What the VFS has checked before it calls. */
  predicate MayDo(inodes: map<nat, Inode>, es: seq<Entry>, op: Op) {
    IsLiveDir(inodes, op.dir) &&
    match op
    case Create(d, name, ino) => Lookup(es, d, name) == -1 && ino !in inodes
    case Mkdir(d, name, ino) => Lookup(es, d, name) == -1 && ino !in inodes
    case Link(d, name, ino) => Lookup(es, d, name) == -1 && ino in inodes && !inodes[ino].isDir
    case Unlink(d, name) => Lookup(es, d, name) != -1 && !es[Lookup(es, d, name)].isDir
    case Rmdir(d, name) => Lookup(es, d, name) != -1 && es[Lookup(es, d, name)].isDir
    case Rename(d, name, nd, nname) => Lookup(es, d, name) != -1 && MayRename(inodes, es, Lookup(es, d, name), nd, nname)
  }

  /** The entries after an operation that is asked for with this fault. */
  ghost function EntriesAfter(inodes: map<nat, Inode>, es: seq<Entry>, op: Op, fault: Fault): seq<Entry> {
    if !MayDo(inodes, es, op) then es
    else
      var goesOn := fault == NoFault || fault == NoBudget(NoSpace);
      match op
      case Create(d, name, ino) => if fault == NoFault then es + [Entry(d, name, ino, false)] else es
      case Mkdir(d, name, ino) => if fault == NoFault then es + [Entry(d, name, ino, true)] else es
      case Link(d, name, ino) => if fault == NoFault then es + [Entry(d, name, ino, false)] else es
      case Unlink(d, name) => if goesOn then RemoveAt(es, Lookup(es, d, name)) else es
      case Rmdir(d, name) => if goesOn && IsEmptyDir(es, es[Lookup(es, d, name)].target) then RemoveAt(es, Lookup(es, d, name)) else es
      case Rename(d, name, nd, nname) =>
        var i, n := Lookup(es, d, name), Overwritten(es, nd, nname);
        if fault == NoFault && (es[i].isDir && n != -1 ==> IsEmptyDir(es, n)) then Renamed(es, i, nd, nname) else es
  }

  datatype Tree = Tree(inodes: map<nat, Inode>, entries: seq<Entry>)

  ghost predicate AllDone(ops: seq<Op>, faults: seq<Fault>, n: nat, trace: seq<Tree>)
    requires n <= |ops| == |faults|
  {
    && |trace| == n + 1
    && forall k :: 0 <= k < n ==> trace[k + 1].entries == EntriesAfter(trace[k].inodes, trace[k].entries, ops[k], faults[k])
  }

  lemma OneMoreDone(ops: seq<Op>, faults: seq<Fault>, n: nat, trace: seq<Tree>, t: Tree)
    requires n < |ops| == |faults| && AllDone(ops, faults, n, trace)
    requires t.entries == EntriesAfter(trace[n].inodes, trace[n].entries, ops[n], faults[n])
    ensures AllDone(ops, faults, n + 1, trace + [t])
  {
    hide EntriesAfter;
    var all := trace + [t];
    forall k | 0 <= k < n + 1
      ensures all[k + 1].entries == EntriesAfter(all[k].inodes, all[k].entries, ops[k], faults[k])
    {
      assert all[k] == trace[k] && (k < n ==> all[k + 1] == trace[k + 1]);
    }
  }

  class Fs {
    var inodes: map<nat, Inode>
    var entries: seq<Entry>

    ghost predicate Valid()
      reads this
    {
      Consistent(inodes, entries)
    }

    predicate Admissible(op: Op)
      reads this
    {
      MayDo(inodes, entries, op)
    }

    ghost function Now(): Tree
      reads this
    {
      Tree(inodes, entries)
    }

    /** drop_nlink, inc_nlink and the changes of i_size */
    method Resize(d: nat, n: int)
      requires d in inodes
      modifies this`inodes
      ensures inodes == Sized(old(inodes), d, n)
    {
      hide DentSize;
      inodes := inodes[d := inodes[d].(size := inodes[d].size + n)];
    }

    method AddLinks(d: nat, n: int)
      requires d in inodes
      modifies this`inodes
      ensures inodes == Linked(old(inodes), d, n)
    {
      hide DentSize;
      inodes := inodes[d := inodes[d].(nlink := inodes[d].nlink + n)];
    }

    /** ubifs_create */
    method Create(dir: nat, name: string, ino: nat, fault: Fault) returns (err: Errno)
      requires Valid() && Admissible(Op.Create(dir, name, ino)) && (fault.NoBudget? ==> fault.err != Ok)
      modifies this
      ensures Valid() && (err == Ok <==> fault == NoFault)
      ensures err == Ok ==> entries == old(entries) + [Entry(dir, name, ino, false)] && inodes.Keys == old(inodes).Keys + {ino}
      ensures err != Ok ==> entries == old(entries) && inodes == old(inodes)
    {
      hide Consistent, NamesDiffer, Lookup, DentSize, NoEntry;
      if fault.NoBudget? {
        return fault.err;
      }
      var sz: int := DentSize(name);
      Resize(dir, sz);
      if fault == NoFault {
        inodes := inodes[ino := Inode(false, 0, 1)];
        entries := entries + [Entry(dir, name, ino, false)];
        assert Linked(Sized(old(inodes), dir, sz), dir, 0) == Sized(old(inodes), dir, sz);
        AfterMake(old(inodes), old(entries), inodes, dir, name, ino, false);
        return Ok;
      }
      SizedBack(old(inodes), dir, sz);
      Resize(dir, 0 - sz);
      return Failed;
    }

    /** ubifs_mkdir */
    method Mkdir(dir: nat, name: string, ino: nat, fault: Fault) returns (err: Errno)
      requires Valid() && Admissible(Op.Mkdir(dir, name, ino)) && (fault.NoBudget? ==> fault.err != Ok)
      modifies this
      ensures Valid() && (err == Ok <==> fault == NoFault)
      ensures err == Ok ==> entries == old(entries) + [Entry(dir, name, ino, true)] && inodes.Keys == old(inodes).Keys + {ino}
      ensures err != Ok ==> entries == old(entries) && inodes == old(inodes)
    {
      hide Consistent, NamesDiffer, Lookup, DentSize, NoEntry;
      if fault.NoBudget? {
        return fault.err;
      }
      var sz: int := DentSize(name);
      var inode := Inode(true, INO_NODE_SZ, 1);
      inode := inode.(nlink := inode.nlink + 1);
      AddLinks(dir, 1);
      Resize(dir, sz);
      if fault == NoFault {
        assert inodes == Linked(Sized(old(inodes), dir, sz), dir, 1);
        inodes := inodes[ino := inode];
        entries := entries + [Entry(dir, name, ino, true)];
        AfterMake(old(inodes), old(entries), inodes, dir, name, ino, true);
        return Ok;
      }
      SizedBack(Linked(old(inodes), dir, 1), dir, sz);
      Resize(dir, 0 - sz);
      SizedBack(old(inodes), dir, 1);
      AddLinks(dir, -1);
      return Failed;
    }

    /** ubifs_link */
    method Link(dir: nat, name: string, ino: nat, fault: Fault) returns (err: Errno)
      requires Valid() && Admissible(Op.Link(dir, name, ino)) && (fault.NoBudget? ==> fault.err != Ok)
      modifies this
      ensures Valid() && (err == Ok <==> fault == NoFault)
      ensures err == Ok ==> entries == old(entries) + [Entry(dir, name, ino, false)] && inodes.Keys == old(inodes).Keys
      ensures err != Ok ==> entries == old(entries) && inodes == old(inodes)
    {
      hide Consistent, NamesDiffer, Lookup, DentSize, NoEntry;
      if fault.NoBudget? {
        return fault.err;
      }
      var sz: int := DentSize(name);
      AddLinks(ino, 1);
      Resize(dir, sz);
      if fault == NoFault {
        entries := entries + [Entry(dir, name, ino, false)];
        AfterLink(old(inodes), old(entries), inodes, dir, name, ino);
        return Ok;
      }
      SizedBack(Linked(old(inodes), ino, 1), dir, sz);
      Resize(dir, 0 - sz);
      SizedBack(old(inodes), ino, 1);
      AddLinks(ino, -1);
      return Failed;
    }

    /** The undo path of ubifs_unlink, and with ino the parent the first half of that of ubifs_rmdir. */
    method UnlinkUndo(dir: nat, ino: nat, sz: int, ghost was: map<nat, Inode>)
      requires dir in was && ino in was && inodes == Sized(Linked(was, ino, -1), dir, 0 - sz)
      modifies this`inodes
      ensures inodes == was
    {
      hide DentSize;
      SizedBack(Linked(was, ino, -1), dir, 0 - sz);
      Resize(dir, sz);
      SizedBack(was, ino, -1);
      AddLinks(ino, 1);
    }

    /** ubifs_unlink; without budget it goes ahead. */
    method Unlink(dir: nat, name: string, fault: Fault) returns (err: Errno)
      requires Valid() && Admissible(Op.Unlink(dir, name)) && (fault.NoBudget? ==> fault.err != Ok)
      modifies this
      ensures Valid() && (err == Ok <==> fault == NoFault || fault == NoBudget(NoSpace))
      ensures err == Ok ==> entries == RemoveAt(old(entries), Lookup(old(entries), dir, name)) && inodes.Keys == old(inodes).Keys
      ensures err != Ok ==> entries == old(entries) && inodes == old(inodes)
    {
      hide DentSize;
      if fault.NoBudget? && fault.err != NoSpace {
        return fault.err;
      }
      var i := Lookup(entries, dir, name);
      assert entries[i] in entries && EntryOk(inodes, entries[i]);
      assert dir in inodes && entries[i].dir == dir && entries[i].name == name && !entries[i].isDir;
      hide *;
      var ino := entries[i].target;
      var sz: int := DentSize(name);
      AddLinks(ino, -1);
      Resize(dir, 0 - sz);
      if fault != InJournal {
        entries := RemoveAt(entries, i);
        AfterUnlink(old(inodes), old(entries), inodes, i);
        return Ok;
      }
      UnlinkUndo(dir, ino, sz, old(inodes));
      return Failed;
    }

    /** ubifs_rmdir; the undo path gives the directory two links, which is right since it is empty. */
    method Rmdir(dir: nat, name: string, fault: Fault) returns (err: Errno)
      requires Valid() && Admissible(Op.Rmdir(dir, name)) && (fault.NoBudget? ==> fault.err != Ok)
      modifies this
      ensures Valid()
      ensures var t := old(entries)[Lookup(old(entries), dir, name)].target;
              err == Ok <==> IsEmptyDir(old(entries), t) && (fault == NoFault || fault == NoBudget(NoSpace))
      ensures err == Ok ==> entries == RemoveAt(old(entries), Lookup(old(entries), dir, name)) && inodes.Keys == old(inodes).Keys
      ensures err != Ok ==> entries == old(entries) && inodes == old(inodes)
    {
      hide DentSize, IsEmptyDir, Consistent, EntryOk, Lookup, Admissible, RemoveAt;
      RmdirEntry(dir, name);
      var i := Lookup(entries, dir, name);
      var ino := entries[i].target;
      if !IsEmptyDir(entries, ino) {
        return NotEmpty;
      }
      if fault.NoBudget? && fault.err != NoSpace {
        return fault.err;
      }
      EmptyHasTwoLinks(inodes, entries, i);
      var sz: int := DentSize(name);
      inodes := inodes[ino := inodes[ino].(nlink := 0)];
      ghost var cleared := inodes;
      AddLinks(dir, -1);
      Resize(dir, 0 - sz);
      if fault != InJournal {
        entries := RemoveAt(entries, i);
        AfterRmdir(old(inodes), old(entries), inodes, i);
        return Ok;
      }
      UnlinkUndo(dir, dir, sz, cleared);
      AddLinks(ino, 1);
      AddLinks(ino, 1);
      assert inodes[ino] == old(inodes)[ino];
      assert inodes == old(inodes);
      return Failed;
    }

    lemma RmdirEntry(dir: nat, name: string)
      requires Valid() && Admissible(Op.Rmdir(dir, name))
      ensures Consistent(inodes, entries) && dir in inodes
      ensures var i := Lookup(entries, dir, name);
        0 <= i < |entries| && EntryOk(inodes, entries[i]) && entries[i].dir == dir && entries[i].name == name && entries[i].isDir
    {
      hide DentSize;
      var i := Lookup(entries, dir, name);
      assert entries[i] in entries;
    }

    /** The link counts of the parents in ubifs_rename. */
    method MoveLink(oldDir: nat, newDir: nat, unlink: bool)
      requires oldDir in inodes && newDir in inodes
      modifies this`inodes
      ensures inodes == ParentsLinked(old(inodes), oldDir, newDir, unlink)
    {
      hide DentSize;
      if newDir != oldDir {
        AddLinks(oldDir, -1);
        if !unlink {
          AddLinks(newDir, 1);
        }
      } else if unlink {
        AddLinks(oldDir, -1);
      }
    }

    /** The same on the way back. */
    method MoveLinkBack(oldDir: nat, newDir: nat, unlink: bool, ghost was: map<nat, Inode>)
      requires oldDir in was && newDir in was && inodes == ParentsLinked(was, oldDir, newDir, unlink)
      modifies this`inodes
      ensures inodes == was
    {
      hide DentSize;
      if newDir != oldDir {
        AddLinks(oldDir, 1);
        if !unlink {
          AddLinks(newDir, -1);
        }
      } else if unlink {
        AddLinks(oldDir, 1);
      }
      assert forall d :: d in was ==> inodes[d] == was[d];
    }

    /** ubifs_rename.  syncFails: the inode is synchronous, and writing it at the end fails; the rename has been
        done all the same. */
    method Rename(oldDir: nat, oldName: string, newDir: nat, newName: string, fault: Fault, syncFails: bool) returns (err: Errno)
      requires Valid() && Admissible(Op.Rename(oldDir, oldName, newDir, newName)) && (fault.NoBudget? ==> fault.err != Ok)
      modifies this
      ensures Valid()
      ensures var es, i := old(entries), Lookup(old(entries), oldDir, oldName);
              var n := Overwritten(es, newDir, newName);
              var done := fault == NoFault && (es[i].isDir && n != -1 ==> IsEmptyDir(es, n));
              && (err == Ok <==> done && !syncFails)
              && (if done then entries == Renamed(es, i, newDir, newName) && inodes.Keys == old(inodes).Keys
                  else entries == es && inodes == old(inodes))
    {
      hide DentSize, Consistent, Renamed;
      var i := Lookup(entries, oldDir, oldName);
      err := RenameAt(i, newDir, newName, fault);
      if err == Ok && syncFails {
        err := Failed;
      }
    }

    /** The same for the entry at i, which is what the dentry of the VFS stands for. */
    method RenameAt(i: nat, newDir: nat, newName: string, fault: Fault) returns (err: Errno)
      requires Consistent(inodes, entries) && MayRename(inodes, entries, i, newDir, newName) && (fault.NoBudget? ==> fault.err != Ok)
      modifies this
      ensures Consistent(inodes, entries)
      ensures var n := Overwritten(old(entries), newDir, newName);
              err == Ok <==> fault == NoFault && (old(entries)[i].isDir && n != -1 ==> IsEmptyDir(old(entries), n))
      ensures err == Ok ==> entries == Renamed(old(entries), i, newDir, newName) && inodes.Keys == old(inodes).Keys
      ensures err != Ok ==> entries == old(entries) && inodes == old(inodes)
    {
      hide *;
      OverwrittenIs(inodes, entries, i, newDir, newName);
      var x, n := entries[i], Overwritten(entries, newDir, newName);
      if x.isDir && n != -1 && !IsEmptyDir(entries, n) {
        return NotEmpty;
      }
      if fault.NoBudget? {
        return fault.err;
      }
      RenameCounts(x, n, newDir, newName);
      if fault == NoFault {
        RenameSteps(old(inodes), x, n, newDir, newName);
        entries := Renamed(entries, i, newDir, newName);
        AfterRename(old(inodes), old(entries), inodes, i, newDir, newName);
        return Ok;
      }
      RenameUndo(x, n, newDir, newName, old(inodes));
      return Failed;
    }

    /** The changes that ubifs_rename makes before it writes to the journal. */
    method RenameCounts(x: Entry, n: int, newDir: nat, newName: string)
      requires x.dir in inodes && newDir in inodes && (n == -1 || n in inodes)
      modifies this`inodes
      ensures inodes == RenameChanged(old(inodes), x, n, newDir, newName)
    {
      hide DentSize;
      if x.isDir {
        MoveLink(x.dir, newDir, n != -1);
      }
      Resize(x.dir, 0 - DentSize(x.name));
      if n != -1 {
        if x.isDir {
          AddLinks(n, -1);
        }
        AddLinks(n, -1);
      } else {
        Resize(newDir, DentSize(newName));
      }
    }

    /** The undo path of ubifs_rename. */
    method RenameUndo(x: Entry, n: int, newDir: nat, newName: string, ghost was: map<nat, Inode>)
      requires x.dir in was && newDir in was && (n == -1 || n in was)
      requires inodes == RenameChanged(was, x, n, newDir, newName)
      modifies this`inodes
      ensures inodes == was
    {
      hide DentSize;
      ghost var m1 := ParentsChanged(was, x, n, newDir);
      var oldSz: int, newSz: int := DentSize(x.name), DentSize(newName);
      if n != -1 {
        if x.isDir {
          AddLinks(n, 1);
        }
        AddLinks(n, 1);
        assert inodes[n] == m1[n];
      } else {
        SizedBack(m1, newDir, newSz);
        Resize(newDir, 0 - newSz);
      }
      assert inodes == m1;
      SizedBack(if x.isDir then ParentsLinked(was, x.dir, newDir, n != -1) else was, x.dir, 0 - oldSz);
      Resize(x.dir, oldSz);
      if x.isDir {
        MoveLinkBack(x.dir, newDir, n != -1, was);
      }
    }

    /** One operation, if the VFS lets it through. */
    method Execute(op: Op, fault: Fault, syncFails: bool)
      requires Valid() && (fault.NoBudget? ==> fault.err != Ok)
      modifies this
      ensures Valid() && entries == EntriesAfter(old(inodes), old(entries), op, fault)
    {
      hide Consistent, Lookup, MayRename, IsLiveDir, IsEmptyDir, Renamed, Overwritten, RemoveAt;
      if !Admissible(op) {
        return;
      }
      var err;
      match op
      case Create(d, name, ino) => err := Create(d, name, ino, fault);
      case Mkdir(d, name, ino) => err := Mkdir(d, name, ino, fault);
      case Link(d, name, ino) => err := Link(d, name, ino, fault);
      case Unlink(d, name) => err := Unlink(d, name, fault);
      case Rmdir(d, name) => err := Rmdir(d, name, fault);
      case Rename(d, name, nd, nname) => err := Rename(d, name, nd, nname, fault, syncFails);
    }

    lemma NothingDone(ops: seq<Op>, faults: seq<Fault>)
      requires |faults| == |ops|
      ensures AllDone(ops, faults, 0, [Now()])
    {
    }

    /** Whatever is asked for, in whatever order, and whatever fails: sizes and link counts stay what the
        entries make them, and the entries change as is asked for.  trace is what there was before each
        operation and in the end. */
    method Run(ops: seq<Op>, faults: seq<Fault>, unsynced: set<nat>) returns (ghost trace: seq<Tree>)
      requires Valid() && |faults| == |ops| && forall f :: f in faults && f.NoBudget? ==> f.err != Ok
      modifies this
      ensures Valid() && AllDone(ops, faults, |ops|, trace) && |trace| == |ops| + 1 && trace[0] == old(Now()) && trace[|ops|] == Now()
    {
      hide Consistent, AllDone, EntriesAfter;
      trace := [Now()];
      NothingDone(ops, faults);
      for k := 0 to |ops|
        invariant Valid() && AllDone(ops, faults, k, trace) && |trace| == k + 1 && trace[0] == old(Now()) && trace[k] == Now()
      {
        assert faults[k] in faults;
        Execute(ops[k], faults[k], k in unsynced);
        OneMoreDone(ops, faults, k, trace, Now());
        trace := trace + [Now()];
      }
    }
  }

  function ParentsLinked(inodes: map<nat, Inode>, oldDir: nat, newDir: nat, unlink: bool): map<nat, Inode>
    requires oldDir in inodes && newDir in inodes
  {
    if newDir != oldDir then
      if unlink then Linked(inodes, oldDir, -1) else Linked(Linked(inodes, oldDir, -1), newDir, 1)
    else if unlink then Linked(inodes, oldDir, -1) else inodes
  }

  lemma OverwrittenIs(inodes: map<nat, Inode>, es: seq<Entry>, i: nat, newDir: nat, newName: string)
    requires Consistent(inodes, es) && MayRename(inodes, es, i, newDir, newName)
    ensures i < |es| && es[i].dir in inodes && newDir in inodes
    ensures var n := Overwritten(es, newDir, newName); n == -1 || n in inodes
    ensures var n := Overwritten(es, newDir, newName); n != -1 && es[i].isDir && IsEmptyDir(es, n) ==> n != newDir && n != es[i].dir
  {
    hide DentSize;
    assert es[i] in es && EntryOk(inodes, es[i]);
    var j := Lookup(es, newDir, newName);
    if j != -1 {
      assert es[j] in es && EntryOk(inodes, es[j]);
    }
  }

  /** The parents' link counts, and the size of the old one. */
  function ParentsChanged(inodes: map<nat, Inode>, x: Entry, n: int, newDir: nat): map<nat, Inode>
    requires x.dir in inodes && newDir in inodes
  {
    Sized(if x.isDir then ParentsLinked(inodes, x.dir, newDir, n != -1) else inodes, x.dir, 0 - DentSize(x.name))
  }

  /** And the inode that is overwritten, or else the size of the new parent. */
  function RenameChanged(inodes: map<nat, Inode>, x: Entry, n: int, newDir: nat, newName: string): map<nat, Inode>
    requires x.dir in inodes && newDir in inodes && (n == -1 || n in inodes)
  {
    var m := ParentsChanged(inodes, x, n, newDir);
    if n == -1 then Sized(m, newDir, DentSize(newName)) else if x.isDir then Linked(Linked(m, n, -1), n, -1) else Linked(m, n, -1)
  }

  lemma RenameSteps(m: map<nat, Inode>, x: Entry, n: int, newDir: nat, newName: string)
    requires x.dir in m && newDir in m && (n == -1 || n in m)
    ensures RenameEffect(m, RenameChanged(m, x, n, newDir, newName), x, n, newDir, newName)
    ensures RenameChanged(m, x, n, newDir, newName).Keys == m.Keys
  {
    hide DentSize;
    assert RenameChanged(m, x, n, newDir, newName).Keys == m.Keys;
  }
}
