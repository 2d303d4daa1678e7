/**
 * Reconciling the files on disk, the records in the database and the two indexes of
 * the file manager (scanning with strict=True in goperation/filemanager/__init__.py).
 */
module FileScan {
  import opened Wrappers

  /** What os.path.splitext leaves of a file name before its extension; an md5 is a number here. */
  datatype Stem = Md5(id: nat) | NotMd5(text: string)

  /** The name of a file in the cache directory: without an extension, or with one. */
  datatype Name = Plain(text: string) | Dotted(stem: Stem, ext: string)

  /** digest: the md5 of what the file holds. */
  datatype Content = Content(size: nat, digest: nat)

  /** A record of the database without its key, the md5; also what a scan notes of a file. */
  datatype Row = Row(size: nat, ext: string)

  datatype LocalFile = LocalFile(path: Name, md5: nat, size: nat)

  datatype Error = DownLoading | NameError | Duplicated | RowExists | NoSuchFile

  type Disk = map<Name, Content>
  type Rows = map<nat, Row>

  function PathOf(id: nat, ext: string): Name {
    Dotted(Md5(id), ext)
  }

  // ---- what a scan is meant to do ----

  predicate WellNamed(n: Name) {
    n.Dotted? && n.stem.Md5?
  }

  ghost predicate Valid(disk: Disk) {
    && (forall n :: n in disk ==> WellNamed(n))
    && (forall n, m :: n in disk && m in disk && n.stem == m.stem ==> n == m)
  }

  /** A file stays unless the record under its name gives another size. */
  ghost predicate Good(disk: Disk, rows: Rows, n: Name) {
    n in disk && WellNamed(n) && (n.stem.id in rows ==> rows[n.stem.id].size == disk[n].size)
  }

  /** The md5 a file is recorded under: that of its name if there is a record of it, otherwise that of its contents. */
  function KeyOf(disk: Disk, rows: Rows, n: Name): nat
    requires n in disk && WellNamed(n)
  {
    if n.stem.id in rows then n.stem.id else disk[n].digest
  }

  /** A strict scan returns: no bad or double names, no file whose record has another extension, no md5 twice. */
  ghost predicate ScanSucceeds(disk: Disk, rows: Rows) {
    && Valid(disk)
    && (forall n :: n in disk && n.stem.id in rows ==> rows[n.stem.id].ext == n.ext)
    && (forall n, m :: Good(disk, rows, n) && Good(disk, rows, m) && n != m ==> KeyOf(disk, rows, n) != KeyOf(disk, rows, m))
  }

  /** The two indexes hold the same records, each under its own path and md5. */
  ghost predicate Bijection(localpath: map<Name, LocalFile>, localmd5: map<nat, LocalFile>) {
    && (forall p :: p in localpath ==>
          && localpath[p].path == p && localpath[p].md5 in localmd5
          && localmd5[localpath[p].md5] == localpath[p])
    && (forall k :: k in localmd5 ==>
          && localmd5[k].md5 == k && localmd5[k].path in localpath
          && localpath[localmd5[k].path] == localmd5[k])
  }

  /** The indexes agree with the disk and with the database. */
  ghost predicate Reconciled(disk: Disk, rows: Rows, localpath: map<Name, LocalFile>, localmd5: map<nat, LocalFile>) {
    && localpath.Keys == disk.Keys
    && localmd5.Keys == rows.Keys
    && Bijection(localpath, localmd5)
    && (forall p :: p in localpath ==> WellNamed(p) && localpath[p].size == disk[p].size)
    && (forall k :: k in localmd5 ==> WellNamed(localmd5[k].path) && rows[k] == Row(localmd5[k].size, localmd5[k].path.ext))
  }

  /** What a scan of disk and rows leaves: the good files, indexed under their keys. */
  ghost predicate Scanned(disk: Disk, rows: Rows, disk': Disk, rows': Rows,
                          localpath: map<Name, LocalFile>, localmd5: map<nat, LocalFile>)
  {
    && (forall n :: n in disk' <==> Good(disk, rows, n))
    && (forall n :: n in disk' ==> disk'[n] == disk[n])
    && Reconciled(disk', rows', localpath, localmd5)
    && (forall n :: n in disk' ==> localpath[n].md5 == KeyOf(disk, rows, n))
  }

  /** No file is recorded under an md5 that is the name of another file. */
  ghost predicate NoBorrowedName(localpath: map<Name, LocalFile>) {
    forall f, g :: f in localpath && g in localpath && WellNamed(g) && localpath[f].md5 == g.stem.id ==> f == g
  }

  /** In a reconciled state without borrowed names, a scan keeps every file under its key. */
  lemma SecondKeeps(disk: Disk, rows: Rows, disk': Disk, rows': Rows,
                    localpath: map<Name, LocalFile>, localmd5: map<nat, LocalFile>, n: Name)
    requires Scanned(disk, rows, disk', rows', localpath, localmd5) && NoBorrowedName(localpath) && n in disk'
    ensures WellNamed(n) && Good(disk', rows', n) && KeyOf(disk', rows', n) == localpath[n].md5
    ensures n.stem.id in rows' ==> rows'[n.stem.id].ext == n.ext
  {
    assert Good(disk, rows, n) && localpath[n].md5 in localmd5;
    if n.stem.id in rows' {
      var f := localmd5[n.stem.id].path;
      assert localpath[f].md5 == n.stem.id;
      assert f == n;
    }
  }

  /** Two recorded files have different md5s. */
  lemma RecordsDiffer(localpath: map<Name, LocalFile>, localmd5: map<nat, LocalFile>, n: Name, m: Name)
    requires Bijection(localpath, localmd5) && n in localpath && m in localpath && n != m
    ensures localpath[n].md5 != localpath[m].md5
  {
    assert localmd5[localpath[n].md5] == localpath[n] && localmd5[localpath[m].md5] == localpath[m];
  }

  lemma SubsetValid(disk: Disk, disk': Disk)
    requires Valid(disk) && forall n :: n in disk' ==> n in disk
    ensures Valid(disk')
  {
  }

  /** A scan that keeps every file under its md5 in the indexes succeeds. */
  lemma AllKept(disk: Disk, rows: Rows, localpath: map<Name, LocalFile>, localmd5: map<nat, LocalFile>)
    requires Valid(disk) && Reconciled(disk, rows, localpath, localmd5)
    requires forall n :: n in disk ==> WellNamed(n) && Good(disk, rows, n) && KeyOf(disk, rows, n) == localpath[n].md5
    requires forall n :: n in disk && n.stem.id in rows ==> rows[n.stem.id].ext == n.ext
    ensures ScanSucceeds(disk, rows) && Scanned(disk, rows, disk, rows, localpath, localmd5)
  {
    hide KeyOf, Valid;
    forall n, m | Good(disk, rows, n) && Good(disk, rows, m) && n != m
      ensures KeyOf(disk, rows, n) != KeyOf(disk, rows, m)
    {
      RecordsDiffer(localpath, localmd5, n, m);
    }
    hide Reconciled;
  }

  lemma SecondSucceeds(disk: Disk, rows: Rows, disk': Disk, rows': Rows,
                       localpath: map<Name, LocalFile>, localmd5: map<nat, LocalFile>)
    requires Valid(disk) && Scanned(disk, rows, disk', rows', localpath, localmd5) && NoBorrowedName(localpath)
    ensures ScanSucceeds(disk', rows') && Scanned(disk', rows', disk', rows', localpath, localmd5)
  {
    forall n | n in disk'
      ensures WellNamed(n) && Good(disk', rows', n) && KeyOf(disk', rows', n) == localpath[n].md5
      ensures n.stem.id in rows' ==> rows'[n.stem.id].ext == n.ext
    {
      SecondKeeps(disk, rows, disk', rows', localpath, localmd5, n);
    }
    forall n | n in disk' ensures n in disk {
      GoodIsThere(disk, rows, n);
    }
    SubsetValid(disk, disk');
    hide Good, KeyOf, NoBorrowedName, Valid, Bijection, WellNamed;
    AllKept(disk', rows', localpath, localmd5);
  }

  lemma GoodIsThere(disk: Disk, rows: Rows, n: Name)
    requires Good(disk, rows, n)
    ensures n in disk && WellNamed(n)
  {
  }

  lemma SecondOwns(rows': Rows, disk': Disk, localpath: map<Name, LocalFile>, localmd5: map<nat, LocalFile>,
                   f: Name, g: Name)
    requires Scanned(disk', rows', disk', rows', localpath, localmd5)
    requires f in localpath && g in localpath && WellNamed(g) && localpath[f].md5 == g.stem.id
    ensures f == g
  {
    assert localmd5[localpath[f].md5] == localpath[f] && localmd5[localpath[g].md5] == localpath[g];
    assert KeyOf(disk', rows', g) == g.stem.id;
  }

  /** Before the scan: no file that stays is to be recorded under the name of another one that stays. */
  ghost predicate NamesFree(disk: Disk, rows: Rows) {
    forall f, g :: Good(disk, rows, f) && Good(disk, rows, g) && KeyOf(disk, rows, f) == g.stem.id ==> f == g
  }

  lemma BorrowedBefore(disk: Disk, rows: Rows, disk': Disk, rows': Rows,
                       localpath: map<Name, LocalFile>, localmd5: map<nat, LocalFile>)
    requires Scanned(disk, rows, disk', rows', localpath, localmd5)
    ensures NoBorrowedName(localpath) <==> NamesFree(disk, rows)
  {
    forall n ensures Good(disk, rows, n) <==> n in localpath && WellNamed(n) {
    }
    hide Good, Reconciled;
    if NoBorrowedName(localpath) {
      forall f, g | Good(disk, rows, f) && Good(disk, rows, g) && KeyOf(disk, rows, f) == g.stem.id ensures f == g {
        assert f in localpath && g in localpath && localpath[f].md5 == KeyOf(disk, rows, f);
      }
    }
    if NamesFree(disk, rows) {
      forall f, g | f in localpath && g in localpath && WellNamed(g) && localpath[f].md5 == g.stem.id ensures f == g {
        assert Good(disk, rows, f) && Good(disk, rows, g);
      }
    }
  }

  /**
   * After a scan, a second one returns and leaves everything as it is if and only if,
   * before the first, no file was to be recorded under the name of another one.
   */
  lemma SecondScan(disk: Disk, rows: Rows, disk': Disk, rows': Rows,
                   localpath: map<Name, LocalFile>, localmd5: map<nat, LocalFile>)
    requires Valid(disk) && Scanned(disk, rows, disk', rows', localpath, localmd5)
    ensures NamesFree(disk, rows) <==>
              ScanSucceeds(disk', rows') && Scanned(disk', rows', disk', rows', localpath, localmd5)
  {
    BorrowedBefore(disk, rows, disk', rows', localpath, localmd5);
    if NoBorrowedName(localpath) {
      SecondSucceeds(disk, rows, disk', rows', localpath, localmd5);
    }
    if Scanned(disk', rows', disk', rows', localpath, localmd5) {
      hide Scanned, WellNamed;
      forall f, g | f in localpath && g in localpath && WellNamed(g) && localpath[f].md5 == g.stem.id ensures f == g {
        SecondOwns(rows', disk', localpath, localmd5, f, g);
      }
    }
  }

  /** A scan leaves one thing only: its result is determined by the disk and the records. */
  lemma ScannedIsUnique(disk: Disk, rows: Rows, d: Disk, r: Rows, p: map<Name, LocalFile>, k: map<nat, LocalFile>,
                        d': Disk, r': Rows, p': map<Name, LocalFile>, k': map<nat, LocalFile>)
    requires Scanned(disk, rows, d, r, p, k) && Scanned(disk, rows, d', r', p', k')
    ensures d == d' && r == r' && p == p' && k == k'
  {
    assert d == d' && p.Keys == p'.Keys;
    forall n | n in p ensures p[n] == p'[n] {
      SameRecord(disk, rows, d, r, p, k, d', r', p', k', n);
    }
    assert p == p';
    hide Good, KeyOf, WellNamed;
    SameByMd5(p, k, k');
    SameByMd5(p, k', k);
    hide Bijection;
    assert k == k';
  }

  lemma SameRecord(disk: Disk, rows: Rows, d: Disk, r: Rows, p: map<Name, LocalFile>, k: map<nat, LocalFile>,
                   d': Disk, r': Rows, p': map<Name, LocalFile>, k': map<nat, LocalFile>, n: Name)
    requires Scanned(disk, rows, d, r, p, k) && Scanned(disk, rows, d', r', p', k') && n in p && n in p'
    ensures p[n] == p'[n]
  {
    hide Good, KeyOf;
  }

  /** Both indexes hold the same files, so the one by path determines the one by md5. */
  lemma SameByMd5(p: map<Name, LocalFile>, k: map<nat, LocalFile>, k': map<nat, LocalFile>)
    requires Bijection(p, k) && Bijection(p, k')
    ensures forall m :: m in k ==> m in k' && k[m] == k'[m]
  {
    forall m | m in k ensures m in k' && k[m] == k'[m] {
      var f := k[m].path;
      assert p[f].md5 == m;
    }
  }

  /**
   * If a second scan returns, it leaves the same files, records and maps as the first
   * one exactly if before the first no file was to be recorded under the name of another one.
   */
  lemma SecondScanRepeats(disk: Disk, rows: Rows, d: Disk, r: Rows, p: map<Name, LocalFile>, k: map<nat, LocalFile>,
                          d': Disk, r': Rows, p': map<Name, LocalFile>, k': map<nat, LocalFile>)
    requires Valid(disk) && Scanned(disk, rows, d, r, p, k)
    requires ScanSucceeds(d, r) && Scanned(d, r, d', r', p', k')
    ensures NamesFree(disk, rows) <==> d' == d && r' == r && p' == p && k' == k
  {
    SecondScan(disk, rows, d, r, p, k);
    hide Scanned, NamesFree, ScanSucceeds;
    if NamesFree(disk, rows) {
      ScannedIsUnique(d, r, d, r, p, k, d', r', p', k');
    }
  }

  /** Two files, each named after the contents of the other, are scanned without an error, but not a second time. */
  lemma SwappedNames(a: nat, b: nat, ext: string, size: nat)
    requires a != b
    ensures var disk: Disk := map[PathOf(a, ext) := Content(size, b), PathOf(b, ext) := Content(size, a)];
            Valid(disk) && ScanSucceeds(disk, map[]) && !NamesFree(disk, map[])
  {
    var disk: Disk := map[PathOf(a, ext) := Content(size, b), PathOf(b, ext) := Content(size, a)];
    assert Good(disk, map[], PathOf(a, ext)) && Good(disk, map[], PathOf(b, ext));
    assert KeyOf(disk, map[], PathOf(a, ext)) == b;
  }

  // ---- the scan, step by step ----

  /** local notes every file under the id of its name. */
  ghost predicate Lists(local: Rows, disk: Disk) {
    && (forall n :: n in disk ==> WellNamed(n) && n.stem.id in local && local[n.stem.id] == Row(disk[n].size, n.ext))
    && (forall id :: id in local ==> PathOf(id, local[id].ext) in disk)
  }

  predicate Agrees(local: Rows, rows: Rows, id: nat) {
    id in local && id in rows && local[id] == rows[id]
  }

  /** The loop over the records, when it has seen the ids in done. */
  ghost predicate Matching(local: Rows, rows0: Rows, done: set<nat>, rest: Rows, rows: Rows, notMatch: set<Name>,
                           localpath: map<Name, LocalFile>, localmd5: map<nat, LocalFile>)
  {
    && (forall id :: id in rest <==> id in local && id !in done)
    && (forall id :: id in rest ==> rest[id] == local[id])
    && (forall id :: id in rows <==> id in rows0 && (id in done ==> Agrees(local, rows0, id)))
    && (forall id :: id in rows ==> rows[id] == rows0[id])
    && (forall p :: p in notMatch <==>
          && WellNamed(p) && p.stem.id in done && p.stem.id in local && p.stem.id in rows0
          && local[p.stem.id] != rows0[p.stem.id] && p.ext == rows0[p.stem.id].ext)
    && (forall id :: id in localmd5 <==> id in done && Agrees(local, rows0, id))
    && (forall id :: id in localmd5 ==>
          localmd5[id] == LocalFile(PathOf(id, rows0[id].ext), id, rows0[id].size))
    && (forall p :: p in localpath <==> WellNamed(p) && p.stem.id in localmd5 && rows0[p.stem.id].ext == p.ext)
    && (forall p :: p in localpath ==> localpath[p] == localmd5[p.stem.id])
  }

  /** The records are those of the index by md5. */
  ghost predicate Described(rows: Rows, localmd5: map<nat, LocalFile>) {
    && localmd5.Keys == rows.Keys
    && (forall k :: k in localmd5 ==> WellNamed(localmd5[k].path) && rows[k] == Row(localmd5[k].size, localmd5[k].path.ext))
  }

  /** The files that are indexed when those noted in rest are left. */
  ghost predicate IsIndexed(disk: Disk, rows0: Rows, local: Rows, rest: Rows, p: Name) {
    p in disk && WellNamed(p) && p.stem.id !in rest && (p.stem.id in rows0 ==> Agrees(local, rows0, p.stem.id))
  }

  ghost predicate UnderKeys(disk: Disk, rows0: Rows, localpath: map<Name, LocalFile>) {
    forall p :: p in localpath ==>
      p in disk && WellNamed(p) && localpath[p].md5 == KeyOf(disk, rows0, p) && localpath[p].size == disk[p].size
  }

  /** The loop over the files without a record, when those in rest are left. */
  ghost predicate Adding(disk: Disk, rows0: Rows, local: Rows, rest: Rows, rows: Rows,
                         localpath: map<Name, LocalFile>, localmd5: map<nat, LocalFile>)
  {
    && (forall id :: id in rest ==> id in local && id !in rows0 && rest[id] == local[id])
    && Bijection(localpath, localmd5)
    && Described(rows, localmd5)
    && (forall p :: p in localpath <==> IsIndexed(disk, rows0, local, rest, p))
    && UnderKeys(disk, rows0, localpath)
  }

  lemma MatchingStart(local: Rows, rows0: Rows)
    ensures Matching(local, rows0, {}, local, rows0, {}, map[], map[])
  {
  }

  lemma MatchingStep(local: Rows, rows0: Rows, done: set<nat>, rest: Rows, rows: Rows, notMatch: set<Name>,
                     localpath: map<Name, LocalFile>, localmd5: map<nat, LocalFile>, id: nat)
    requires Matching(local, rows0, done, rest, rows, notMatch, localpath, localmd5) && id in rows0 && id !in done
    ensures id in rest && rest[id] == rows0[id] ==>
              var file := LocalFile(PathOf(id, rows0[id].ext), id, rows0[id].size);
              Matching(local, rows0, done + {id}, rest - {id}, rows, notMatch,
                       localpath[file.path := file], localmd5[id := file])
    ensures id in rest && rest[id] != rows0[id] ==>
              Matching(local, rows0, done + {id}, rest - {id}, rows - {id}, notMatch + {PathOf(id, rows0[id].ext)},
                       localpath, localmd5)
    ensures id !in rest ==> Matching(local, rows0, done + {id}, rest, rows - {id}, notMatch, localpath, localmd5)
  {
  }

  lemma MatchedBijection(local: Rows, rows0: Rows, rest: Rows, rows: Rows, notMatch: set<Name>,
                         localpath: map<Name, LocalFile>, localmd5: map<nat, LocalFile>)
    requires Matching(local, rows0, rows0.Keys, rest, rows, notMatch, localpath, localmd5)
    ensures Bijection(localpath, localmd5) && Described(rows, localmd5)
  {
  }

  lemma MatchedPaths(disk: Disk, local: Rows, rows0: Rows, rest: Rows, rows: Rows, notMatch: set<Name>,
                     localpath: map<Name, LocalFile>, localmd5: map<nat, LocalFile>, p: Name)
    requires Lists(local, disk) && Matching(local, rows0, rows0.Keys, rest, rows, notMatch, localpath, localmd5)
    ensures p in localpath <==> IsIndexed(disk, rows0, local, rest, p)
    ensures p in localpath ==>
              p in disk && WellNamed(p) && localpath[p].md5 == KeyOf(disk, rows0, p) && localpath[p].size == disk[p].size
  {
    if p in localpath {
      assert PathOf(p.stem.id, local[p.stem.id].ext) == p;
    }
  }

  lemma MatchedRest(local: Rows, rows0: Rows, rest: Rows, rows: Rows, notMatch: set<Name>,
                    localpath: map<Name, LocalFile>, localmd5: map<nat, LocalFile>, id: nat)
    requires Matching(local, rows0, rows0.Keys, rest, rows, notMatch, localpath, localmd5) && id in rest
    ensures id in local && id !in rows0 && rest[id] == local[id]
  {
  }

  lemma MatchingEnd(disk: Disk, local: Rows, rows0: Rows, rest: Rows, rows: Rows, notMatch: set<Name>,
                    localpath: map<Name, LocalFile>, localmd5: map<nat, LocalFile>)
    requires Lists(local, disk) && Matching(local, rows0, rows0.Keys, rest, rows, notMatch, localpath, localmd5)
    ensures Adding(disk, rows0, local, rest, rows, localpath, localmd5)
  {
    hide Matching, Bijection, Described, WellNamed, Lists, KeyOf, IsIndexed;
    MatchedBijection(local, rows0, rest, rows, notMatch, localpath, localmd5);
    forall p
      ensures p in localpath <==> IsIndexed(disk, rows0, local, rest, p)
      ensures p in localpath ==>
                p in disk && WellNamed(p) && localpath[p].md5 == KeyOf(disk, rows0, p) && localpath[p].size == disk[p].size
    {
      MatchedPaths(disk, local, rows0, rest, rows, notMatch, localpath, localmd5, p);
    }
    forall id | id in rest ensures id in local && id !in rows0 && rest[id] == local[id] {
      MatchedRest(local, rows0, rest, rows, notMatch, localpath, localmd5, id);
    }
  }

  /** What indexing one more file changes. */
  lemma AddsOne(disk: Disk, rows0: Rows, local: Rows, rest: Rows, id: nat, p: Name)
    requires Lists(local, disk) && id in rest && id in local && id !in rows0 && rest[id] == local[id]
    ensures PathOf(id, rest[id].ext) in disk
    ensures IsIndexed(disk, rows0, local, rest - {id}, p) <==>
              IsIndexed(disk, rows0, local, rest, p) || p == PathOf(id, rest[id].ext)
    ensures !IsIndexed(disk, rows0, local, rest, PathOf(id, rest[id].ext))
    ensures disk[PathOf(id, rest[id].ext)].size == rest[id].size
    ensures KeyOf(disk, rows0, PathOf(id, rest[id].ext)) == disk[PathOf(id, rest[id].ext)].digest
  {
  }

  lemma BijectionAdds(localpath: map<Name, LocalFile>, localmd5: map<nat, LocalFile>, file: LocalFile)
    requires Bijection(localpath, localmd5) && file.path !in localpath && file.md5 !in localmd5
    ensures Bijection(localpath[file.path := file], localmd5[file.md5 := file])
  {
  }

  /** A file that no record is about is indexed under the digest of its contents. */
  lemma AddingStep(disk: Disk, rows0: Rows, local: Rows, rest: Rows, rows: Rows,
                   localpath: map<Name, LocalFile>, localmd5: map<nat, LocalFile>, id: nat)
    requires Lists(local, disk) && Adding(disk, rows0, local, rest, rows, localpath, localmd5) && id in rest
    ensures var path := PathOf(id, rest[id].ext);
            path in disk && (disk[path].digest !in rows ==>
              var file := LocalFile(path, disk[path].digest, rest[id].size);
              Adding(disk, rows0, local, rest - {id}, rows[file.md5 := rest[id]],
                     localpath[path := file], localmd5[file.md5 := file]))
  {
    hide Lists, IsIndexed, Bijection, KeyOf;
    var path := PathOf(id, rest[id].ext);
    forall p {
      AddsOne(disk, rows0, local, rest, id, p);
    }
    assert path in disk && path !in localpath;
    if disk[path].digest !in rows {
      BijectionAdds(localpath, localmd5, LocalFile(path, disk[path].digest, rest[id].size));
    }
  }

  ghost predicate IsNotMatch(local: Rows, rows0: Rows, notMatch: set<Name>) {
    forall p :: p in notMatch <==>
      && WellNamed(p) && p.stem.id in local && p.stem.id in rows0
      && local[p.stem.id] != rows0[p.stem.id] && p.ext == rows0[p.stem.id].ext
  }

  lemma NotMatchEnd(local: Rows, rows0: Rows, rest: Rows, rows: Rows, notMatch: set<Name>,
                    localpath: map<Name, LocalFile>, localmd5: map<nat, LocalFile>)
    requires Matching(local, rows0, rows0.Keys, rest, rows, notMatch, localpath, localmd5)
    ensures IsNotMatch(local, rows0, notMatch)
  {
  }

  lemma EmptyBijection()
    ensures Bijection(map[], map[])
  {
  }

  lemma InvalidFails(disk: Disk, rows: Rows)
    ensures ScanSucceeds(disk, rows) ==> Valid(disk)
  {
  }

  /** The md5 of a file that is to be added is taken: the scan cannot succeed. */
  lemma AddingFails(disk: Disk, rows0: Rows, local: Rows, rest: Rows, rows: Rows,
                    localpath: map<Name, LocalFile>, localmd5: map<nat, LocalFile>, id: nat)
    requires Lists(local, disk) && Adding(disk, rows0, local, rest, rows, localpath, localmd5) && id in rest
    requires PathOf(id, rest[id].ext) in disk && disk[PathOf(id, rest[id].ext)].digest in rows
    ensures !ScanSucceeds(disk, rows0)
  {
    var n := PathOf(id, rest[id].ext);
    var m := localmd5[disk[n].digest].path;
    AddsOne(disk, rows0, local, rest, id, n);
    assert IsIndexed(disk, rows0, local, rest, m);
    assert Good(disk, rows0, n) && Good(disk, rows0, m) && KeyOf(disk, rows0, n) == KeyOf(disk, rows0, m);
  }

  /** A file to be removed is not there: its record has another extension. */
  lemma RemovingFails(disk: Disk, rows0: Rows, local: Rows, notMatch: set<Name>, p: Name)
    requires Lists(local, disk) && IsNotMatch(local, rows0, notMatch) && p in notMatch && p !in disk
    ensures !ScanSucceeds(disk, rows0)
  {
    assert PathOf(p.stem.id, local[p.stem.id].ext) in disk;
  }

  lemma GoodAtEnd(disk: Disk, rows0: Rows, local: Rows, notMatch: set<Name>, n: Name)
    requires Lists(local, disk) && IsNotMatch(local, rows0, notMatch) && notMatch <= disk.Keys
    ensures Good(disk, rows0, n) <==> n in disk && n !in notMatch
    ensures Good(disk, rows0, n) <==> IsIndexed(disk, rows0, local, map[], n)
    ensures n in disk && WellNamed(n) && n.stem.id in rows0 ==> rows0[n.stem.id].ext == n.ext
  {
    if n in disk && n.stem.id in rows0 && local[n.stem.id] != rows0[n.stem.id] {
      var p := PathOf(n.stem.id, rows0[n.stem.id].ext);
      assert p in notMatch;
    }
  }

  lemma AddingBijection(disk: Disk, rows0: Rows, local: Rows, rest: Rows, rows: Rows,
                        localpath: map<Name, LocalFile>, localmd5: map<nat, LocalFile>)
    requires Adding(disk, rows0, local, rest, rows, localpath, localmd5)
    ensures Bijection(localpath, localmd5)
  {
  }

  lemma ListsValid(local: Rows, disk: Disk)
    requires Lists(local, disk)
    ensures Valid(disk)
  {
  }

  lemma EndSucceeds(disk: Disk, rows0: Rows, local: Rows, rows: Rows, notMatch: set<Name>,
                    localpath: map<Name, LocalFile>, localmd5: map<nat, LocalFile>)
    requires Lists(local, disk) && Adding(disk, rows0, local, map[], rows, localpath, localmd5)
    requires IsNotMatch(local, rows0, notMatch) && notMatch <= disk.Keys
    ensures ScanSucceeds(disk, rows0)
  {
    ListsValid(local, disk);
    assert forall n :: n in disk ==> WellNamed(n);
    forall n | n in disk && n.stem.id in rows0 ensures rows0[n.stem.id].ext == n.ext {
      GoodAtEnd(disk, rows0, local, notMatch, n);
    }
    forall n, m | Good(disk, rows0, n) && Good(disk, rows0, m) && n != m
      ensures KeyOf(disk, rows0, n) != KeyOf(disk, rows0, m)
    {
      GoodAtEnd(disk, rows0, local, notMatch, n);
      GoodAtEnd(disk, rows0, local, notMatch, m);
      hide Lists, IsNotMatch, IsIndexed, Bijection, Good, Valid, KeyOf, Described;
      RecordsDiffer(localpath, localmd5, n, m);
    }
  }

  lemma EndReconciled(disk: Disk, rows0: Rows, local: Rows, rows: Rows, disk': Disk,
                      localpath: map<Name, LocalFile>, localmd5: map<nat, LocalFile>)
    requires Bijection(localpath, localmd5) && Described(rows, localmd5) && UnderKeys(disk, rows0, localpath)
    requires localpath.Keys == disk'.Keys && forall n :: n in disk' ==> n in disk && disk'[n] == disk[n]
    ensures Reconciled(disk', rows, localpath, localmd5)
    ensures forall n :: n in disk' ==> WellNamed(n) && localpath[n].md5 == KeyOf(disk, rows0, n)
  {
    hide Bijection, KeyOf;
  }

  lemma ScanEnd(disk: Disk, rows0: Rows, local: Rows, rows: Rows, notMatch: set<Name>,
                localpath: map<Name, LocalFile>, localmd5: map<nat, LocalFile>)
    requires Lists(local, disk) && Adding(disk, rows0, local, map[], rows, localpath, localmd5)
    requires IsNotMatch(local, rows0, notMatch) && notMatch <= disk.Keys
    ensures Scanned(disk, rows0, disk - notMatch, rows, localpath, localmd5) && ScanSucceeds(disk, rows0)
  {
    hide Lists, IsNotMatch, IsIndexed, Bijection, Good, KeyOf, Described, UnderKeys, Reconciled, ScanSucceeds, WellNamed;
    EndSucceeds(disk, rows0, local, rows, notMatch, localpath, localmd5);
    forall n
      ensures Good(disk, rows0, n) <==> n in disk && n !in notMatch
      ensures n in localpath <==> Good(disk, rows0, n)
    {
      GoodAtEnd(disk, rows0, local, notMatch, n);
    }
    assert localpath.Keys == (disk - notMatch).Keys;
    EndReconciled(disk, rows0, local, rows, disk - notMatch, localpath, localmd5);
  }

  // ---- the file manager ----

  ghost predicate SameId(disk: Disk, n: Name, m: Name) {
    n in disk && m in disk && n != m && WellNamed(n) && WellNamed(m) && n.stem.id == m.stem.id
  }

  /** Why the directory cannot be listed: a name is not that of an md5, or two are of the same one. */
  ghost predicate ListingFails(disk: Disk, error: Error) {
    || (error == NameError && exists n :: n in disk && !WellNamed(n))
    || (error == Duplicated && exists n, m :: SameId(disk, n, m))
  }

  class FileManager {
    var disk: Disk
    var rows: Rows
    var localpath: map<Name, LocalFile>
    var localmd5: map<nat, LocalFile>
    var downloading: set<nat>

    /** localfiles: what is found in the directory. */
    method ListFiles() returns (r: Result<Rows, Error>)
      ensures r.Ok? <==> Valid(disk)
      ensures r.Ok? ==> Lists(r.value, disk)
      ensures r.Err? ==> ListingFails(disk, r.error)
    {
      var localfiles: Rows := map[];
      var todo := disk.Keys;
      while todo != {}
        invariant todo <= disk.Keys
        invariant forall n :: n in disk && n !in todo ==>
                    WellNamed(n) && n.stem.id in localfiles && localfiles[n.stem.id] == Row(disk[n].size, n.ext)
        invariant forall id :: id in localfiles ==>
                    PathOf(id, localfiles[id].ext) in disk && PathOf(id, localfiles[id].ext) !in todo
        decreases todo
      {
        var n :| n in todo;
        todo := todo - {n};
        if n.Plain? {
          return Err(NameError);
        }
        if n.stem.NotMd5? {
          return Err(NameError);
        }
        if n.stem.id in localfiles {
          assert PathOf(n.stem.id, localfiles[n.stem.id].ext) != n;
          assert SameId(disk, n, PathOf(n.stem.id, localfiles[n.stem.id].ext));
          return Err(Duplicated);
        }
        localfiles := localfiles[n.stem.id := Row(disk[n].size, n.ext)];
      }
      ListsValid(localfiles, disk);
      return Ok(localfiles);
    }

    /** The loop over the records. */
    method MatchRecords(localfiles: Rows) returns (rest: Rows, notMatch: set<Name>)
      requires localpath == map[] && localmd5 == map[]
      modifies this`rows, this`localpath, this`localmd5
      ensures Matching(localfiles, old(rows), old(rows).Keys, rest, rows, notMatch, localpath, localmd5)
    {
      rest, notMatch := localfiles, {};
      ghost var before := rows;
      var todo := rows.Keys;
      MatchingStart(localfiles, before);
      while todo != {}
        invariant todo <= before.Keys
        invariant Matching(localfiles, before, before.Keys - todo, rest, rows, notMatch, localpath, localmd5)
        decreases todo
      {
        var id :| id in todo;
        MatchingStep(localfiles, before, before.Keys - todo, rest, rows, notMatch, localpath, localmd5, id);
        assert id in rows && rows[id] == before[id];
        assert before.Keys - (todo - {id}) == before.Keys - todo + {id};
        hide Matching;
        todo := todo - {id};
        if id !in rest {
          rows := rows - {id};
        } else {
          var local, row := rest[id], rows[id];
          rest := rest - {id};
          var path := PathOf(id, row.ext);
          if local.size != row.size || local.ext != row.ext {
            notMatch := notMatch + {path};
            rows := rows - {id};
          } else {
            var file := LocalFile(path, id, row.size);
            localpath := localpath[path := file];
            localmd5 := localmd5[id := file];
          }
        }
      }
      assert before.Keys - todo == before.Keys;
    }

    /** The loop over the files that no record was about. */
    method AddRecords(localfiles: Rows, ghost local: Rows, ghost before: Rows) returns (r: Result<(), Error>)
      requires Lists(local, disk) && Adding(disk, before, local, localfiles, rows, localpath, localmd5)
      modifies this`rows, this`localpath, this`localmd5
      ensures r.Ok? ==> Adding(disk, before, local, map[], rows, localpath, localmd5)
      ensures r.Err? ==> !ScanSucceeds(disk, before) && r.error == RowExists
      ensures Bijection(localpath, localmd5)
    {
      hide Lists, Adding, ScanSucceeds, Bijection;
      var rest := localfiles;
      AddingBijection(disk, before, local, rest, rows, localpath, localmd5);
      while rest != map[]
        invariant Adding(disk, before, local, rest, rows, localpath, localmd5)
        invariant Bijection(localpath, localmd5)
        decreases rest.Keys
      {
        var id :| id in rest.Keys;
        var path := PathOf(id, rest[id].ext);
        AddingStep(disk, before, local, rest, rows, localpath, localmd5, id);
        var md5 := disk[path].digest;
        if md5 in rows {
          AddingFails(disk, before, local, rest, rows, localpath, localmd5, id);
          return Err(RowExists);
        }
        var file := LocalFile(path, md5, rest[id].size);
        rows := rows[md5 := rest[id]];
        localpath := localpath[path := file];
        localmd5 := localmd5[md5 := file];
        rest := rest - {id};
        AddingBijection(disk, before, local, rest, rows, localpath, localmd5);
      }
      return Ok(());
    }

    method RemoveFiles(files: set<Name>) returns (r: Result<(), Error>)
      modifies this`disk
      ensures r.Ok? <==> files <= old(disk).Keys
      ensures r.Err? ==> r.error == NoSuchFile
      ensures r.Ok? ==> disk == old(disk) - files
    {
      var rest := files;
      while rest != {}
        invariant rest <= files && files - rest <= old(disk).Keys && disk == old(disk) - (files - rest)
        decreases rest
      {
        var p :| p in rest;
        if p !in disk {
          return Err(NoSuchFile);
        }
        disk := disk - {p};
        rest := rest - {p};
      }
      return Ok(());
    }

    /** The scan after the directory was listed. */
    method Reconcile(localfiles: Rows) returns (r: Result<(), Error>)
      requires Lists(localfiles, disk) && localpath == map[] && localmd5 == map[]
      modifies this`disk, this`rows, this`localpath, this`localmd5
      ensures r.Ok? <==> ScanSucceeds(old(disk), old(rows))
      ensures r.Ok? ==> Scanned(old(disk), old(rows), disk, rows, localpath, localmd5)
      ensures r.Err? ==> r.error == RowExists || r.error == NoSuchFile
      ensures Bijection(localpath, localmd5)
    {
      hide Matching, Adding, Scanned, ScanSucceeds, Lists, IsNotMatch, Bijection;
      ghost var disk0, rows0 := disk, rows;
      var rest, notMatch := MatchRecords(localfiles);
      MatchingEnd(disk0, localfiles, rows0, rest, rows, notMatch, localpath, localmd5);
      NotMatchEnd(localfiles, rows0, rest, rows, notMatch, localpath, localmd5);
      r := AddRecords(rest, localfiles, rows0);
      if r.Ok? {
        r := RemoveFiles(notMatch);
        if r.Ok? {
          ScanEnd(disk0, rows0, localfiles, rows, notMatch, localpath, localmd5);
        } else {
          ghost var p :| p in notMatch && p !in disk0;
          RemovingFails(disk0, rows0, localfiles, notMatch, p);
        }
      }
    }

    /** scanning, with strict=True. */
    method Scanning() returns (r: Result<(), Error>)
      modifies this`disk, this`rows, this`localpath, this`localmd5
      ensures r.Ok? <==> downloading == {} && ScanSucceeds(old(disk), old(rows))
      ensures r.Ok? ==> Scanned(old(disk), old(rows), disk, rows, localpath, localmd5)
      ensures downloading != {} ==> r == Err(DownLoading) && unchanged(this)
      ensures downloading == {} && r.Err? ==>
                if Valid(old(disk)) then r.error == RowExists || r.error == NoSuchFile
                else ListingFails(old(disk), r.error)
      ensures downloading == {} ==> Bijection(localpath, localmd5)
    {
      InvalidFails(disk, rows);
      EmptyBijection();
      hide Scanned, ScanSucceeds, Lists, Valid, Bijection, ListingFails;
      if downloading != {} {
        return Err(DownLoading);
      }
      localpath, localmd5 := map[], map[];
      var listed := ListFiles();
      if listed.Err? {
        return Err(listed.error);
      }
      r := Reconcile(listed.value);
    }
  }
}
