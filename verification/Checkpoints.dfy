/**
 Session checkpoints: a log of pre-images over a file system.

 A `Disk` is the part of the world the store touches: the files a session writes, one directory per
 checkpoint (manifest and blobs) and the marker naming the open checkpoint.  The operations are given as
 functions on a `Disk`; class `CheckpointStore` carries them out step by step.  A `History` adds to the disk
 what no file records: how the file system looked when each checkpoint opened and when it was last recording.
 */
module Checkpoints {
  import opened Common

  type Path = string
  type Content = string
  type CheckpointId = string
  type FileSystem = map<Path, Content>

  datatype CapturedFile = CapturedFile(path: Path, existed: bool, blob: Option<string>)

  datatype Manifest = Manifest(id: CheckpointId, title: Option<string>, createdAt: int, files: seq<CapturedFile>)

  datatype CheckpointDir = CheckpointDir(manifest: Manifest, blobs: map<string, Content>)

  datatype Disk = Disk(fs: FileSystem, dirs: map<CheckpointId, CheckpointDir>, open: Option<CheckpointId>)

  datatype RestoreReport = RestoreReport(restored: nat, removed: nat, dropped: nat)

  datatype StorageError = NoSuchCheckpoint | MissingBlob

  // ---------------------------------------------------------------- file system

  function Get(fs: FileSystem, p: Path): Option<Content> {
    if p in fs then Some(fs[p]) else None
  }

  /** What a tool leaves at `p`: new content, or nothing when it deletes the file. */
  function Put(fs: FileSystem, p: Path, c: Option<Content>): FileSystem {
    match c
    case Some(v) => fs[p := v]
    case None => fs - {p}
  }

  lemma SameFiles(a: FileSystem, b: FileSystem)
    requires forall p: Path :: Get(a, p) == Get(b, p)
    ensures a == b
  {
    forall p: Path ensures (p in a <==> p in b) && (p in a ==> a[p] == b[p]) {
      assert Get(a, p) == Get(b, p);
    }
  }

  // ---------------------------------------------------------------- blob names

  function BlobName(n: nat): string {
    Decimal(n) + ".blob"
  }

  /** Two positions of a manifest never share a blob file. */
  lemma BlobNameInjective(a: nat, b: nat)
    requires BlobName(a) == BlobName(b)
    ensures a == b
  {
    var na, nb := BlobName(a), BlobName(b);
    assert Decimal(a) == na[..|na| - 5] && Decimal(b) == nb[..|nb| - 5];
    DecimalInjective(a, b);
  }

  // ---------------------------------------------------------------- operations

  predicate Captured(files: seq<CapturedFile>, p: Path) {
    exists i :: 0 <= i < |files| && files[i].path == p
  }

  /** Opening creates the directory or reuses one of the same name, and starts an empty manifest in it. */
  function BeginOp(d: Disk, id: CheckpointId, title: Option<string>, now: int): Disk {
    var blobs := if id in d.dirs then d.dirs[id].blobs else map[];
    Disk(d.fs, d.dirs[id := CheckpointDir(Manifest(id, title, now, []), blobs)], Some(id))
  }

  function CaptureOp(d: Disk, p: Path): Disk {
    if d.open.None? || d.open.value !in d.dirs then d
    else
      var dir := d.dirs[d.open.value];
      if Captured(dir.manifest.files, p) then d
      else d.(dirs := d.dirs[d.open.value := AddPreImage(dir, p, Get(d.fs, p))])
  }

  function AddPreImage(dir: CheckpointDir, p: Path, c: Option<Content>): CheckpointDir {
    var name := BlobName(|dir.manifest.files|);
    var file := CapturedFile(p, c.Some?, if c.Some? then Some(name) else None);
    CheckpointDir(dir.manifest.(files := dir.manifest.files + [file]),
                  if c.Some? then dir.blobs[name := c.value] else dir.blobs)
  }

  /** A tool's write: the hook captures the path, then the tool replaces or deletes the file. */
  function WriteOp(d: Disk, p: Path, c: Option<Content>): Disk {
    var captured := CaptureOp(d, p);
    captured.(fs := Put(captured.fs, p, c))
  }

  function RestoreFile(fs: FileSystem, blobs: map<string, Content>, f: CapturedFile): Result<FileSystem, StorageError> {
    match (f.blob, f.existed)
    case (Some(name), true) => if name in blobs then Ok(fs[f.path := blobs[name]]) else Err(MissingBlob)
    case (None, false) => Ok(fs - {f.path})
    case _ => Ok(fs)
  }

  /** The file system after the first `n` manifest entries, and whether all of them could be restored. */
  function RestoreFirst(fs: FileSystem, dir: CheckpointDir, n: nat): (r: (FileSystem, bool))
    requires n <= |dir.manifest.files|
  {
    if n == 0 then (fs, true)
    else
      var (g, ok) := RestoreFirst(fs, dir, n - 1);
      if !ok then (g, false)
      else match RestoreFile(g, dir.blobs, dir.manifest.files[n - 1])
        case Ok(h) => (h, true)
        case Err(_) => (g, false)
  }

  /** Entry `i` has a pre-image, and its blob is gone. */
  predicate Lacks(dir: CheckpointDir, i: nat)
    requires i < |dir.manifest.files|
  {
    var f := dir.manifest.files[i];
    f.existed && f.blob.Some? && f.blob.value !in dir.blobs
  }

  predicate BlobsPresent(dir: CheckpointDir, n: nat)
    requires n <= |dir.manifest.files|
  {
    forall i :: 0 <= i < n ==> !Lacks(dir, i)
  }

  /** Everything opened at or after `since` goes. */
  function DropFrom(dirs: map<CheckpointId, CheckpointDir>, since: int): map<CheckpointId, CheckpointDir> {
    map id | id in dirs && dirs[id].manifest.createdAt < since :: dirs[id]
  }

  function RollbackOp(d: Disk, id: CheckpointId): Disk {
    if id !in d.dirs then d
    else
      var dir := d.dirs[id];
      var (g, ok) := RestoreFirst(d.fs, dir, |dir.manifest.files|);
      if ok then Disk(g, DropFrom(d.dirs, dir.manifest.createdAt), None) else d.(fs := g)
  }

  // ---------------------------------------------------------------- runs

  datatype Event =
    | Begin(id: CheckpointId, title: Option<string>, now: int)
    | Write(path: Path, content: Option<Content>)
    | Rollback(id: CheckpointId)

  /** `origin[A]` is the file system when `A` opened, `left[A]` when `A` last stopped being the open one. */
  datatype History = History(disk: Disk, origin: map<CheckpointId, FileSystem>, left: map<CheckpointId, FileSystem>)

  function Start(fs: FileSystem): History {
    History(Disk(fs, map[], None), map[], map[])
  }

  function Leave(h: History): map<CheckpointId, FileSystem> {
    if h.disk.open.Some? then h.left[h.disk.open.value := h.disk.fs] else h.left
  }

  function Step(h: History, e: Event): History {
    match e
    case Begin(id, title, now) => History(BeginOp(h.disk, id, title, now), h.origin[id := h.disk.fs], Leave(h))
    case Write(p, c) => h.(disk := WriteOp(h.disk, p, c))
    case Rollback(id) => if id in h.disk.dirs then History(RollbackOp(h.disk, id), h.origin, Leave(h)) else h
  }

  function Run(h: History, es: seq<Event>): History {
    if es == [] then h else Step(Run(h, es[..|es| - 1]), es[|es| - 1])
  }

  lemma {:induction false} RunConcat(h: History, a: seq<Event>, b: seq<Event>)
    ensures Run(h, a + b) == Run(Run(h, a), b)
  {
    if b == [] {
      assert a + b == a;
    } else {
      assert (a + b)[..|a + b| - 1] == a + b[..|b| - 1];
      RunConcat(h, a, b[..|b| - 1]);
    }
  }

  lemma RunSnoc(h: History, a: seq<Event>, e: Event)
    ensures Run(h, a + [e]) == Step(Run(h, a), e)
  {
    assert (a + [e])[..|a + [e]| - 1] == a;
  }

  // ---------------------------------------------------------------- the invariant

  /** Every entry of the manifest holds its path's content at `origin`, each path once, each blob its own file. */
  ghost predicate PreImages(dir: CheckpointDir, origin: FileSystem) {
    var files := dir.manifest.files;
    && (forall i :: 0 <= i < |files| ==> Faithful(files[i], i, dir.blobs, origin))
    && (forall i, j :: 0 <= i < j < |files| ==> files[i].path != files[j].path)
  }

  ghost predicate Faithful(f: CapturedFile, i: nat, blobs: map<string, Content>, origin: FileSystem) {
    && f.existed == (f.path in origin)
    && f.blob == (if f.existed then Some(BlobName(i)) else None)
    && (f.existed ==> BlobName(i) in blobs && blobs[BlobName(i)] == origin[f.path])
  }

  /** How the files looked when checkpoint `id` was last recording: now, if it is the open one. */
  ghost function LastSeen(h: History, id: CheckpointId): FileSystem
    requires id in h.left || h.disk.open == Some(id)
  {
    if h.disk.open == Some(id) then h.disk.fs else h.left[id]
  }

  /** What checkpoint `id` must satisfy: sound pre-images, and no unrecorded change while it was open. */
  ghost predicate Tracked(h: History, id: CheckpointId)
    requires id in h.disk.dirs
  {
    && h.disk.dirs[id].manifest.id == id
    && id in h.origin
    && (id in h.left || h.disk.open == Some(id))
    && PreImages(h.disk.dirs[id], h.origin[id])
    && (forall p: Path :: !Captured(h.disk.dirs[id].manifest.files, p)
                          ==> Get(LastSeen(h, id), p) == Get(h.origin[id], p))
  }

  ghost predicate Inv(h: History) {
    && (h.disk.open.Some? ==> h.disk.open.value in h.disk.dirs)
    && (forall id :: id in h.disk.dirs ==> Tracked(h, id))
  }

  lemma BeginKeepsInv(h: History, id: CheckpointId, title: Option<string>, now: int)
    requires Inv(h)
    ensures Inv(Step(h, Begin(id, title, now)))
  {
    var g := Step(h, Begin(id, title, now));
    forall a | a in g.disk.dirs ensures Tracked(g, a) {
      if a != id {
        assert Tracked(h, a);
      }
    }
  }

  lemma AddPreImageSound(dir: CheckpointDir, p: Path, origin: FileSystem)
    requires PreImages(dir, origin) && !Captured(dir.manifest.files, p)
    ensures PreImages(AddPreImage(dir, p, Get(origin, p)), origin)
  {
    var next := AddPreImage(dir, p, Get(origin, p));
    var n := |dir.manifest.files|;
    forall i | 0 <= i < n + 1 ensures Faithful(next.manifest.files[i], i, next.blobs, origin) {
      if i < n {
        assert Faithful(dir.manifest.files[i], i, dir.blobs, origin);
        if BlobName(i) == BlobName(n) {
          BlobNameInjective(i, n);
        }
      }
    }
  }

  lemma WriteKeepsInv(h: History, p: Path, c: Option<Content>)
    requires Inv(h)
    ensures Inv(Step(h, Write(p, c)))
    ensures h.disk.open.Some? ==>
              var files := h.disk.dirs[h.disk.open.value].manifest.files;
              var after := Step(h, Write(p, c)).disk.dirs[h.disk.open.value].manifest.files;
              forall q: Path :: Captured(after, q) <==> Captured(files, q) || q == p
  {
    var g := Step(h, Write(p, c));
    if h.disk.open.Some? {
      var o := h.disk.open.value;
      assert Tracked(h, o);
      var files := h.disk.dirs[o].manifest.files;
      var after := g.disk.dirs[o].manifest.files;
      if !Captured(files, p) {
        assert Get(h.disk.fs, p) == Get(h.origin[o], p);
        AddPreImageSound(h.disk.dirs[o], p, h.origin[o]);
        assert after == files + [after[|files|]] && after[|files|].path == p;
        forall q: Path ensures Captured(after, q) <==> Captured(files, q) || q == p {
          if Captured(files, q) {
            var i :| 0 <= i < |files| && files[i].path == q;
            assert after[i].path == q;
          }
        }
      }
    }
    forall a | a in g.disk.dirs ensures Tracked(g, a) {
      assert Tracked(h, a);
      assert Some(a) != h.disk.open ==> g.disk.dirs[a] == h.disk.dirs[a];
    }
  }

  /** Restoring a sound manifest never lacks a blob, and gives each captured path its opening content. */
  lemma {:induction false} RestoreIsExact(fs: FileSystem, dir: CheckpointDir, origin: FileSystem, n: nat)
    requires PreImages(dir, origin) && n <= |dir.manifest.files|
    ensures RestoreFirst(fs, dir, n).1
    ensures forall p: Path :: Get(RestoreFirst(fs, dir, n).0, p)
                              == if Captured(dir.manifest.files[..n], p) then Get(origin, p) else Get(fs, p)
  {
    var files := dir.manifest.files;
    if n > 0 {
      RestoreIsExact(fs, dir, origin, n - 1);
      assert Faithful(files[n - 1], n - 1, dir.blobs, origin);
      forall p: Path ensures Captured(files[..n], p) <==> Captured(files[..n - 1], p) || p == files[n - 1].path {
        if Captured(files[..n - 1], p) {
          var i :| 0 <= i < n - 1 && files[..n - 1][i].path == p;
          assert files[..n][i].path == p;
        }
        if p == files[n - 1].path {
          assert files[..n][n - 1].path == p;
        }
      }
    }
  }

  /**
   A rollback, exactly.  It cannot fail.  Captured paths get their opening content, every other path is left
   alone; so a path shows its opening content precisely when it was captured or has not changed since the
   checkpoint stopped recording.  The checkpoint goes, with all whose timestamp is no earlier, and none is open.
   */
  lemma RollbackIsExact(h: History, id: CheckpointId)
    requires Inv(h) && id in h.disk.dirs
    ensures Tracked(h, id)
    ensures var dir := h.disk.dirs[id];
            var after := Step(h, Rollback(id)).disk;
            && RestoreFirst(h.disk.fs, dir, |dir.manifest.files|).1
            && (forall p: Path :: Get(after.fs, p)
                  == if Captured(dir.manifest.files, p) then Get(h.origin[id], p) else Get(h.disk.fs, p))
            && (forall p: Path :: Get(after.fs, p) == Get(h.origin[id], p) <==>
                  Captured(dir.manifest.files, p) || Get(h.disk.fs, p) == Get(LastSeen(h, id), p))
            && (forall a :: a in after.dirs <==>
                  a in h.disk.dirs && h.disk.dirs[a].manifest.createdAt < dir.manifest.createdAt)
            && (forall a :: a in after.dirs ==> after.dirs[a] == h.disk.dirs[a])
            && after.open == None
  {
    assert Tracked(h, id);
    var files := h.disk.dirs[id].manifest.files;
    RestoreIsExact(h.disk.fs, h.disk.dirs[id], h.origin[id], |files|);
    assert files[..|files|] == files;
  }

  lemma RollbackKeepsInv(h: History, id: CheckpointId)
    requires Inv(h)
    ensures Inv(Step(h, Rollback(id)))
  {
    if id in h.disk.dirs {
      RollbackIsExact(h, id);
      var g := Step(h, Rollback(id));
      forall a | a in g.disk.dirs ensures Tracked(g, a) {
        assert Tracked(h, a);
      }
    }
  }

  /** Whatever a session does, every stored pre-image is its path's content when its checkpoint opened. */
  lemma {:induction false} EveryRunKeepsInv(h: History, es: seq<Event>)
    requires Inv(h)
    ensures Inv(Run(h, es))
  {
    if es != [] {
      EveryRunKeepsInv(h, es[..|es| - 1]);
      var g := Run(h, es[..|es| - 1]);
      match es[|es| - 1]
      case Begin(id, title, now) => BeginKeepsInv(g, id, title, now);
      case Write(p, c) => WriteKeepsInv(g, p, c);
      case Rollback(id) => RollbackKeepsInv(g, id);
    }
  }

  // ---------------------------------------------------------------- what a session sees

  ghost predicate OnlyWrites(es: seq<Event>) {
    forall i :: 0 <= i < |es| ==> es[i].Write?
  }

  ghost predicate Wrote(es: seq<Event>, p: Path) {
    exists i :: 0 <= i < |es| && es[i].Write? && es[i].path == p
  }

  /** From `h` to `g` checkpoint `id` stayed open, and recorded exactly the paths the writes `ws` touched. */
  ghost predicate Records(h: History, id: CheckpointId, ws: seq<Event>, g: History)
    requires Inv(h) && h.disk.open == Some(id)
  {
    && Inv(g) && g.disk.open == Some(id) && g.origin == h.origin && g.left == h.left
    && g.disk.dirs.Keys == h.disk.dirs.Keys
    && (forall p: Path :: Captured(g.disk.dirs[id].manifest.files, p)
                          <==> Captured(h.disk.dirs[id].manifest.files, p) || Wrote(ws, p))
    && (forall a :: a in h.disk.dirs && a != id ==> g.disk.dirs[a] == h.disk.dirs[a])
    && (forall p: Path :: !Wrote(ws, p) ==> Get(g.disk.fs, p) == Get(h.disk.fs, p))
  }

  lemma WroteSnoc(ws: seq<Event>, e: Event)
    requires e.Write?
    ensures forall p: Path :: Wrote(ws + [e], p) <==> Wrote(ws, p) || p == e.path
  {
    forall p: Path ensures Wrote(ws + [e], p) <==> Wrote(ws, p) || p == e.path {
      if Wrote(ws, p) {
        var i :| 0 <= i < |ws| && ws[i].Write? && ws[i].path == p;
        assert (ws + [e])[i].path == p;
      }
      if p == e.path {
        assert (ws + [e])[|ws|].path == p;
      }
    }
  }

  lemma WriteFrame(g: History, e: Event)
    requires Inv(g) && g.disk.open.Some? && e.Write?
    ensures var n := Step(g, e);
            && n.disk.open == g.disk.open && n.origin == g.origin && n.left == g.left
            && n.disk.dirs.Keys == g.disk.dirs.Keys
            && (forall a :: a in g.disk.dirs && a != g.disk.open.value ==> n.disk.dirs[a] == g.disk.dirs[a])
            && (forall p: Path :: p != e.path ==> Get(n.disk.fs, p) == Get(g.disk.fs, p))
  {
  }

  lemma WriteRecords(h: History, id: CheckpointId, ws: seq<Event>, g: History, e: Event, more: seq<Event>, n: History)
    requires Inv(h) && h.disk.open == Some(id) && Records(h, id, ws, g) && e.Write?
    requires more == ws + [e] && n == Step(g, e)
    ensures Records(h, id, more, n)
  {
    WriteKeepsInv(g, e.path, e.content);
    WriteFrame(g, e);
    WroteSnoc(ws, e);
    forall p: Path | !Wrote(more, p) ensures Get(n.disk.fs, p) == Get(h.disk.fs, p) {
      assert !Wrote(ws, p) && p != e.path;
    }
  }

  lemma NothingWritten(h: History, id: CheckpointId)
    requires Inv(h) && h.disk.open == Some(id)
    ensures Records(h, id, [], h)
  {
  }

  lemma {:induction false} WritesRecord(h: History, id: CheckpointId, ws: seq<Event>)
    requires Inv(h) && h.disk.open == Some(id) && OnlyWrites(ws)
    ensures Records(h, id, ws, Run(h, ws))
  {
    if ws == [] {
      NothingWritten(h, id);
    } else {
      var init, last := ws[..|ws| - 1], ws[|ws| - 1];
      WritesRecord(h, id, init);
      WriteRecords(h, id, init, Run(h, init), last, ws, Run(h, ws));
    }
  }

  /** After any session, opening a checkpoint, writing at will and rolling back restores the whole file system. */
  lemma RollbackRestoresOpening(fs: FileSystem, before: seq<Event>, id: CheckpointId, title: Option<string>,
                                now: int, writes: seq<Event>)
    requires OnlyWrites(writes)
    ensures Run(Start(fs), before + [Begin(id, title, now)] + writes + [Rollback(id)]).disk.fs
            == Run(Start(fs), before).disk.fs
  {
    var h := Run(Start(fs), before);
    EveryRunKeepsInv(Start(fs), before);
    RunSnoc(Start(fs), before, Begin(id, title, now));
    var b := Step(h, Begin(id, title, now));
    BeginKeepsInv(h, id, title, now);
    RunConcat(Start(fs), before + [Begin(id, title, now)], writes);
    WritesRecord(b, id, writes);
    var w := Run(b, writes);
    RunSnoc(Start(fs), before + [Begin(id, title, now)] + writes, Rollback(id));
    RollbackIsExact(w, id);
    SameFiles(Step(w, Rollback(id)).disk.fs, h.disk.fs);
  }

  /** After any session the report of a rollback counts the files put back and the files taken away. */
  lemma ReportIsExact(start: FileSystem, es: seq<Event>, id: CheckpointId)
    requires id in Run(Start(start), es).disk.dirs
    ensures var h := Run(Start(start), es);
            var dir := h.disk.dirs[id];
            && id in h.origin
            && CountRestored(dir, |dir.manifest.files|)
               == |ToRestore(CapturedPaths(dir.manifest.files), h.origin[id])|
            && CountRemoved(h.disk.fs, dir, |dir.manifest.files|)
               == |ToRemove(CapturedPaths(dir.manifest.files), h.origin[id], h.disk.fs)|
  {
    var h := Run(Start(start), es);
    EveryRunKeepsInv(Start(start), es);
    assert Tracked(h, id);
    var files := h.disk.dirs[id].manifest.files;
    CountsAreExact(h.disk.fs, h.disk.dirs[id], h.origin[id], |files|);
    assert files[..|files|] == files;
  }

  /**
   Rolling back to `a` past a newer checkpoint `b`: only what was written before `b` opened returns to its
   content at `a`; what was first written after `b` opened stays.
   */
  lemma RollbackPastNewer(fs: FileSystem, before: seq<Event>, a: Event, w1: seq<Event>, b: Event, w2: seq<Event>)
    requires a.Begin? && b.Begin? && a.id != b.id && OnlyWrites(w1) && OnlyWrites(w2)
    ensures var at := Run(Start(fs), before).disk.fs;
            var end := Run(Start(fs), before + [a] + w1 + [b] + w2).disk.fs;
            var after := Run(Start(fs), before + [a] + w1 + [b] + w2 + [Rollback(a.id)]).disk.fs;
            && (forall p: Path :: Get(after, p) == if Wrote(w1, p) then Get(at, p) else Get(end, p))
            && (after == at <==>
                forall p: Path :: Wrote(w2, p) && !Wrote(w1, p) ==> Get(end, p) == Get(at, p))
  {
    var s := Start(fs);
    var h := Run(s, before);
    EveryRunKeepsInv(s, before);
    RunSnoc(s, before, a);
    BeginKeepsInv(h, a.id, a.title, a.now);
    RunConcat(s, before + [a], w1);
    WritesRecord(Step(h, a), a.id, w1);
    var h1 := Run(Step(h, a), w1);
    RunSnoc(s, before + [a] + w1, b);
    BeginKeepsInv(h1, b.id, b.title, b.now);
    RunConcat(s, before + [a] + w1 + [b], w2);
    WritesRecord(Step(h1, b), b.id, w2);
    var h2 := Run(Step(h1, b), w2);
    RunSnoc(s, before + [a] + w1 + [b] + w2, Rollback(a.id));
    RollbackIsExact(h2, a.id);
    assert h2.origin[a.id] == h.disk.fs;
    var after := Step(h2, Rollback(a.id)).disk.fs;
    if forall p: Path :: Wrote(w2, p) && !Wrote(w1, p) ==> Get(h2.disk.fs, p) == Get(h.disk.fs, p) {
      SameFiles(after, h.disk.fs);
    }
  }

  /** The documented promise "as they were when `id` was opened" fails for a file first written after a newer one. */
  lemma RollbackPastNewerMissesAFile()
    ensures Run(Start(map[]), [Begin("a", None, 0), Begin("b", None, 1), Write("f", Some("x")), Rollback("a")]).disk.fs
            != map[]
  {
    RollbackPastNewer(map[], [], Begin("a", None, 0), [], Begin("b", None, 1), [Write("f", Some("x"))]);
    var es := [Begin("a", None, 0), Begin("b", None, 1), Write("f", Some("x"))];
    assert [] + [Begin("a", None, 0)] + [] + [Begin("b", None, 1)] + [Write("f", Some("x"))] == es;
    assert es + [Rollback("a")]
        == [Begin("a", None, 0), Begin("b", None, 1), Write("f", Some("x")), Rollback("a")];
    var h1 := Run(Start(map[]), es[..2]);
    RunSnoc(Start(map[]), es[..2], es[2]);
    assert es[..2] + [es[2]] == es;
    var end := Run(Start(map[]), es).disk.fs;
    assert Get(end, "f") == Some("x");
    assert Wrote([Write("f", Some("x"))], "f") by {
      assert [Write("f", Some("x"))][0].path == "f";
    }
    assert Get(map[], "f") == None;
  }

  // ---------------------------------------------------------------- timestamps

  /** No checkpoint opens in `es` under the name `id`, or at a time before `t`. */
  ghost predicate OpensAfter(es: seq<Event>, id: CheckpointId, t: int) {
    forall i :: 0 <= i < |es| && es[i].Begin? ==> es[i].id != id && es[i].now >= t
  }

  /** Whatever was not known before `t` was opened no earlier than `t`, and so was `id`. */
  ghost predicate NewerThan(d: Disk, id: CheckpointId, t: int, known: set<CheckpointId>) {
    && (id in d.dirs ==> d.dirs[id].manifest.createdAt == t)
    && (forall a :: a in d.dirs ==> a in known || d.dirs[a].manifest.createdAt >= t)
  }

  lemma StepKeepsNewer(g: History, id: CheckpointId, t: int, known: set<CheckpointId>, e: Event)
    requires Inv(g) && NewerThan(g.disk, id, t, known)
    requires e.Begin? ==> e.id != id && e.now >= t
    ensures NewerThan(Step(g, e).disk, id, t, known)
  {
    if e.Rollback? && e.id in g.disk.dirs {
      RollbackIsExact(g, e.id);
    }
  }

  lemma {:induction false} SurvivorsAreOlder(h: History, id: CheckpointId, t: int, known: set<CheckpointId>,
                                             es: seq<Event>)
    requires Inv(h) && NewerThan(h.disk, id, t, known) && OpensAfter(es, id, t)
    ensures NewerThan(Run(h, es).disk, id, t, known)
  {
    if es != [] {
      var init := es[..|es| - 1];
      EveryRunKeepsInv(h, init);
      assert forall i :: 0 <= i < |init| ==> init[i] == es[i];
      SurvivorsAreOlder(h, id, t, known, init);
      StepKeepsNewer(Run(h, init), id, t, known, es[|es| - 1]);
    }
  }

  /** With a clock that never runs back, a rollback leaves no checkpoint opened after the one it names. */
  lemma RollbackDropsEverythingNewer(fs: FileSystem, before: seq<Event>, a: Event, since: seq<Event>)
    requires a.Begin? && OpensAfter(since, a.id, a.now)
    requires a.id in Run(Start(fs), before + [a] + since).disk.dirs
    ensures var after := Run(Start(fs), before + [a] + since + [Rollback(a.id)]).disk;
            after.open == None && after.dirs.Keys <= Run(Start(fs), before).disk.dirs.Keys - {a.id}
  {
    var s := Start(fs);
    var h := Run(s, before);
    EveryRunKeepsInv(s, before);
    RunSnoc(s, before, a);
    BeginKeepsInv(h, a.id, a.title, a.now);
    RunConcat(s, before + [a], since);
    SurvivorsAreOlder(Step(h, a), a.id, a.now, h.disk.dirs.Keys - {a.id}, since);
    EveryRunKeepsInv(Step(h, a), since);
    RunSnoc(s, before + [a] + since, Rollback(a.id));
    RollbackIsExact(Run(Step(h, a), since), a.id);
  }

  // ---------------------------------------------------------------- the store

  function CountRestored(dir: CheckpointDir, n: nat): nat
    requires n <= |dir.manifest.files|
  {
    if n == 0 then 0
    else CountRestored(dir, n - 1)
         + if dir.manifest.files[n - 1].existed && dir.manifest.files[n - 1].blob.Some? then 1 else 0
  }

  /** Removals are counted only when there was a file to remove. */
  function CountRemoved(fs: FileSystem, dir: CheckpointDir, n: nat): nat
    requires n <= |dir.manifest.files|
  {
    if n == 0 then 0
    else
      var f := dir.manifest.files[n - 1];
      CountRemoved(fs, dir, n - 1)
      + if !f.existed && f.blob.None? && f.path in RestoreFirst(fs, dir, n - 1).0 then 1 else 0
  }

  /** The paths a manifest has captured. */
  function CapturedPaths(files: seq<CapturedFile>): set<Path> {
    set i | 0 <= i < |files| :: files[i].path
  }

  lemma CapturedPathsSnoc(files: seq<CapturedFile>, n: nat)
    requires n < |files|
    ensures CapturedPaths(files[..n + 1]) == CapturedPaths(files[..n]) + {files[n].path}
  {
    var before, after := files[..n], files[..n + 1];
    forall p | p in CapturedPaths(before) ensures p in CapturedPaths(after) {
      var i :| 0 <= i < n && before[i].path == p;
      assert after[i].path == p;
    }
    assert after[n].path == files[n].path;
    forall p | p in CapturedPaths(after) ensures p in CapturedPaths(before) + {files[n].path} {
      var i :| 0 <= i <= n && after[i].path == p;
      assert i < n ==> before[i].path == p;
    }
  }

  lemma CapturedOnce(files: seq<CapturedFile>, n: nat)
    requires n < |files| && forall i, j :: 0 <= i < j < |files| ==> files[i].path != files[j].path
    ensures files[n].path !in CapturedPaths(files[..n]) && !Captured(files[..n], files[n].path)
  {
    assert forall i :: 0 <= i < n ==> files[..n][i] == files[i];
  }

  /** Of some paths, those that existed at opening; and those that did not but exist now. */
  ghost function ToRestore(paths: set<Path>, origin: FileSystem): set<Path> {
    set p | p in paths && p in origin
  }

  ghost function ToRemove(paths: set<Path>, origin: FileSystem, fs: FileSystem): set<Path> {
    set p | p in paths && p !in origin && p in fs
  }

  lemma CountsGrow(paths: set<Path>, p: Path, origin: FileSystem, fs: FileSystem)
    requires p !in paths
    ensures |ToRestore(paths + {p}, origin)| == |ToRestore(paths, origin)| + (if p in origin then 1 else 0)
    ensures |ToRemove(paths + {p}, origin, fs)| == |ToRemove(paths, origin, fs)| + (if p !in origin && p in fs then 1 else 0)
  {
    var a, b := ToRestore(paths, origin), ToRemove(paths, origin, fs);
    assert ToRestore(paths + {p}, origin) == if p in origin then a + {p} else a;
    assert ToRemove(paths + {p}, origin, fs) == if p !in origin && p in fs then b + {p} else b;
  }

  /** What the report counts, for sound pre-images: files put back, and files taken away that were there. */
  lemma {:induction false} CountsAreExact(fs: FileSystem, dir: CheckpointDir, origin: FileSystem, n: nat)
    requires PreImages(dir, origin) && n <= |dir.manifest.files|
    ensures CountRestored(dir, n) == |ToRestore(CapturedPaths(dir.manifest.files[..n]), origin)|
    ensures CountRemoved(fs, dir, n) == |ToRemove(CapturedPaths(dir.manifest.files[..n]), origin, fs)|
  {
    var files := dir.manifest.files;
    if n == 0 {
      assert CapturedPaths(files[..0]) == {};
    } else {
      CountsAreExact(fs, dir, origin, n - 1);
      assert Faithful(files[n - 1], n - 1, dir.blobs, origin);
      CapturedOnce(files, n - 1);
      CapturedPathsSnoc(files, n - 1);
      RestoreIsExact(fs, dir, origin, n - 1);
      var p, g := files[n - 1].path, RestoreFirst(fs, dir, n - 1).0;
      assert Get(g, p) == Get(fs, p);
      CountsGrow(CapturedPaths(files[..n - 1]), p, origin, fs);
    }
  }

  class CheckpointStore {
    var fs: FileSystem
    var dirs: map<CheckpointId, CheckpointDir>
    var open: Option<CheckpointId>

    ghost function State(): Disk
      reads this
    {
      Disk(fs, dirs, open)
    }

    constructor (fs: FileSystem)
      ensures State() == Start(fs).disk
    {
      this.fs := fs;
      dirs := map[];
      open := None;
    }

    /** `id` carries the random suffix and may repeat; `now` is the clock. */
    method Begin(id: CheckpointId, title: Option<string>, now: int)
      modifies this
      ensures State() == BeginOp(old(State()), id, title, now)
      ensures fs == old(fs) && open == Some(id) && dirs.Keys == old(dirs).Keys + {id}
      ensures dirs[id].manifest == Manifest(id, title, now, [])
      ensures forall a :: a in old(dirs) && a != id ==> dirs[a] == old(dirs)[a]
    {
      var blobs: map<string, Content> := map[];
      if id in dirs {
        blobs := dirs[id].blobs;
      }
      dirs := dirs[id := CheckpointDir(Manifest(id, title, now, []), blobs)];
      open := Some(id);
    }

    method Capture(path: Path) returns (r: Result<bool, StorageError>)
      modifies this
      ensures State() == CaptureOp(old(State()), path)
      ensures r.Ok? && r.value <==> State() != old(State())
      ensures r.Err? <==> old(open).Some? && old(open).value !in old(dirs)
    {
      if open.None? {
        return Ok(false);
      }
      var id := open.value;
      if id !in dirs {
        return Err(NoSuchCheckpoint);
      }
      var dir := dirs[id];
      var files := dir.manifest.files;
      var i := 0;
      while i < |files|
        invariant 0 <= i <= |files|
        invariant !Captured(files[..i], path)
      {
        if files[i].path == path {
          return Ok(false);
        }
        i := i + 1;
      }
      assert files[..i] == files;
      var blob := None;
      var blobs := dir.blobs;
      if path in fs {
        var name := BlobName(|files|);
        blobs := blobs[name := fs[path]];
        blob := Some(name);
      }
      var manifest := dir.manifest.(files := files + [CapturedFile(path, path in fs, blob)]);
      dirs := dirs[id := CheckpointDir(manifest, blobs)];
      assert dirs[id] != old(dirs)[id];
      return Ok(true);
    }

    method Rollback(id: CheckpointId) returns (r: Result<RestoreReport, StorageError>)
      modifies this
      ensures State() == RollbackOp(old(State()), id)
      ensures r == Err(NoSuchCheckpoint) <==> id !in old(dirs)
      ensures r.Err? ==> dirs == old(dirs) && open == old(open)
      ensures id !in old(dirs) ==> fs == old(fs)
      ensures r == Err(MissingBlob) <==> id in old(dirs) && !BlobsPresent(old(dirs)[id], |old(dirs)[id].manifest.files|)
      ensures r.Ok? ==>
                var dir := old(dirs)[id];
                var n := |dir.manifest.files|;
                && r.value.restored == CountRestored(dir, n)
                && r.value.removed == CountRemoved(old(fs), dir, n)
                && r.value.dropped == |old(dirs)| - |dirs|
      ensures r.Ok? ==> forall origin :: PreImages(old(dirs)[id], origin) ==>
                var files := old(dirs)[id].manifest.files;
                && r.value.restored == |ToRestore(CapturedPaths(files), origin)|
                && r.value.removed == |ToRemove(CapturedPaths(files), origin, old(fs))|
    {
      if id !in dirs {
        return Err(NoSuchCheckpoint);
      }
      var dir := dirs[id];
      var files := dir.manifest.files;
      var restored, removed := 0, 0;
      var i := 0;
      while i < |files|
        invariant 0 <= i <= |files|
        invariant dirs == old(dirs) && open == old(open)
        invariant (fs, true) == RestoreFirst(old(fs), dir, i)
        invariant restored == CountRestored(dir, i)
        invariant removed == CountRemoved(old(fs), dir, i)
        invariant BlobsPresent(dir, i)
      {
        var f := files[i];
        if f.blob.Some? && f.existed {
          if f.blob.value !in dir.blobs {
            RestoreStopsAt(old(fs), dir, i + 1, |files|);
            assert Lacks(dir, i);
            return Err(MissingBlob);
          }
          fs := fs[f.path := dir.blobs[f.blob.value]];
          restored := restored + 1;
        } else if f.blob.None? && !f.existed {
          if f.path in fs {
            removed := removed + 1;
          }
          fs := fs - {f.path};
        }
        i := i + 1;
      }
      forall origin | PreImages(dir, origin)
        ensures restored == |ToRestore(CapturedPaths(files), origin)|
        ensures removed == |ToRemove(CapturedPaths(files), origin, old(fs))|
      {
        CountsAreExact(old(fs), dir, origin, |files|);
        assert files[..|files|] == files;
      }
      var dropped := DropNewer(dir.manifest.createdAt);
      return Ok(RestoreReport(restored, removed, dropped));
    }

    /** Checkpoint directories are visited in no particular order. */
    method DropNewer(since: int) returns (dropped: nat)
      modifies this`dirs, this`open
      ensures dirs == DropFrom(old(dirs), since) && open == None
      ensures dropped == |old(dirs)| - |dirs|
    {
      dropped := 0;
      var todo := dirs.Keys;
      while todo != {}
        invariant todo <= dirs.Keys <= old(dirs).Keys
        invariant forall a :: a in dirs ==> dirs[a] == old(dirs)[a]
        invariant forall a :: a in old(dirs) ==> (a in dirs <==> a in todo || old(dirs)[a].manifest.createdAt < since)
        invariant dropped == |old(dirs)| - |dirs|
        decreases |todo|
      {
        var a :| a in todo;
        todo := todo - {a};
        if dirs[a].manifest.createdAt >= since {
          var rest := dirs - {a};
          assert rest.Keys == dirs.Keys - {a};
          dirs := rest;
          dropped := dropped + 1;
        }
      }
      assert dirs == DropFrom(old(dirs), since);
      open := None;
    }
  }

  /** Once an entry cannot be restored, the entries after it are not looked at. */
  lemma {:induction false} RestoreStopsAt(fs: FileSystem, dir: CheckpointDir, n: nat, m: nat)
    requires n <= m <= |dir.manifest.files| && !RestoreFirst(fs, dir, n).1
    ensures RestoreFirst(fs, dir, m) == RestoreFirst(fs, dir, n)
  {
    if n < m {
      RestoreStopsAt(fs, dir, n, m - 1);
    }
  }
}
