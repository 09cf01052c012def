/** The redo log of log.c.

  A disk is a sequence of blocks and a run of the log is a sequence of single
  block writes, each of them atomic.  `CommitWrites` and `RecoveryWrites` are the
  writes of commit() and recover_from_log() in order; class `Log` performs exactly
  them.  `Meaning` is the disk a completed recovery would leave, and the crash
  theorem is that every write except the header write keeps it. */
module RedoLog {

  const LOGSIZE: nat := 30
  const MAXOPBLOCKS: nat := 10

  /** A block through the eyes of struct logheader: its first 32-bit word and the
    words behind it.  Every block can be seen this way, the header block is used so. */
  datatype Block = Block(count: int, words: seq<int>)

  type Disk = seq<Block>

  datatype Write = Write(blockno: int, data: Block)

  /** log.start and log.size: the header block and the log blocks behind it. */
  datatype Geometry = Geometry(start: nat, size: nat)

  predicate InLog(g: Geometry, b: int) {
    g.start <= b < g.start + g.size
  }

  function Apply1(d: Disk, w: Write): (r: Disk)
    ensures |r| == |d|
  {
    if 0 <= w.blockno < |d| then d[w.blockno := w.data] else d
  }

  function Apply(d: Disk, ws: seq<Write>): (r: Disk)
    ensures |r| == |d|
  {
    if ws == [] then d else Apply1(Apply(d, ws[..|ws| - 1]), ws[|ws| - 1])
  }

  lemma ApplyNone(d: Disk)
    ensures Apply(d, []) == d
  {
  }

  lemma {:induction false} ApplyConcat(d: Disk, a: seq<Write>, b: seq<Write>)
    ensures Apply(d, a + b) == Apply(Apply(d, a), b)
  {
    if b == [] {
      assert a + b == a;
    } else {
      ApplyConcat(d, a, b[..|b| - 1]);
      assert (a + b)[..|a + b| - 1] == a + b[..|b| - 1];
    }
  }

  lemma ApplySnoc(d: Disk, ws: seq<Write>, k: nat)
    requires k < |ws|
    ensures Apply(d, ws[..k + 1]) == Apply1(Apply(d, ws[..k]), ws[k])
  {
    assert ws[..k + 1][..k] == ws[..k];
  }

  /** The block list in a header block: the count and that many words. */
  function HeaderOf(b: Block): (lh: seq<int>) {
    if 0 <= b.count <= |b.words| then b.words[..b.count] else []
  }

  /** What write_head leaves in a header block that held b: the count and the
    first |lh| entries are overwritten, the rest of the block stays. */
  function HeaderWith(b: Block, lh: seq<int>): (r: Block)
    requires |lh| <= |b.words|
    ensures HeaderOf(r) == lh && |r.words| == |b.words|
  {
    Block(|lh|, lh + b.words[|lh|..])
  }

  predicate Distinct(s: seq<int>) {
    forall i, j :: 0 <= i < j < |s| ==> s[i] != s[j]
  }

  /** Distinct home blocks of a disk of n blocks, few enough for the log. */
  predicate GoodHeader(g: Geometry, n: nat, lh: seq<int>) {
    && |lh| <= LOGSIZE
    && |lh| + 1 <= g.size
    && Distinct(lh)
    && forall i :: 0 <= i < |lh| ==> 0 <= lh[i] < n && !InLog(g, lh[i])
  }

  predicate GoodDisk(g: Geometry, d: Disk) {
    && 0 < g.size
    && g.start + g.size <= |d|
    && LOGSIZE <= |d[g.start].words|
    && 0 <= d[g.start].count <= LOGSIZE
    && GoodHeader(g, |d|, HeaderOf(d[g.start]))
  }

  /** What bread returns: the pinned dirty buffer if there is one, else the disk. */
  function View(d: Disk, cache: map<int, Block>, b: int): (r: Block)
    requires 0 <= b < |d|
  {
    if b in cache then cache[b] else d[b]
  }

  function LogWrites(g: Geometry, d: Disk, cache: map<int, Block>, lh: seq<int>): (ws: seq<Write>)
    requires forall i :: 0 <= i < |lh| ==> 0 <= lh[i] < |d|
  {
    seq(|lh|, i requires 0 <= i < |lh| => Write(g.start + 1 + i, View(d, cache, lh[i])))
  }

  function InstallWrites(g: Geometry, d: Disk, lh: seq<int>): (ws: seq<Write>)
    requires g.start + g.size <= |d| && GoodHeader(g, |d|, lh)
  {
    seq(|lh|, i requires 0 <= i < |lh| => Write(lh[i], d[g.start + 1 + i]))
  }

  function RecoveryWrites(g: Geometry, d: Disk): (ws: seq<Write>)
    requires GoodDisk(g, d)
  {
    InstallWrites(g, d, HeaderOf(d[g.start])) + [Write(g.start, HeaderWith(d[g.start], []))]
  }

  /** The disk once commit's header write has happened. */
  function Committed(g: Geometry, d: Disk, cache: map<int, Block>, lh: seq<int>): (r: Disk)
    requires GoodDisk(g, d) && GoodHeader(g, |d|, lh)
  {
    Apply(d, LogWrites(g, d, cache, lh))[g.start := HeaderWith(d[g.start], lh)]
  }

  /** Agreement on every block outside the log area. */
  predicate HomeEq(g: Geometry, d: Disk, e: Disk) {
    && |d| == |e|
    && forall b :: 0 <= b < |d| && !InLog(g, b) ==> d[b] == e[b]
  }

  /** The disk that completing a recovery now would give. */
  function Meaning(g: Geometry, d: Disk): (r: Disk)
    requires GoodDisk(g, d)
  {
    Apply(d, InstallWrites(g, d, HeaderOf(d[g.start])))
  }

  /** The old home blocks with the logged ones replaced by their cached contents. */
  function Overlay(d: Disk, cache: map<int, Block>, lh: seq<int>): (r: Disk)
    ensures |r| == |d|
    ensures forall b :: 0 <= b < |d| ==> r[b] == if b in lh then View(d, cache, b) else d[b]
  {
    seq(|d|, b requires 0 <= b < |d| => if b in lh then View(d, cache, b) else d[b])
  }

  lemma {:induction false} LogPrefix(g: Geometry, d: Disk, cache: map<int, Block>, lh: seq<int>, k: nat)
    requires g.start + g.size <= |d| && GoodHeader(g, |d|, lh) && k <= |lh|
    ensures var e := Apply(d, LogWrites(g, d, cache, lh)[..k]);
      && (forall i :: 0 <= i < k ==> e[g.start + 1 + i] == View(d, cache, lh[i]))
      && (forall b :: 0 <= b < |d| && !(g.start < b <= g.start + k) ==> e[b] == d[b])
  {
    hide Apply;
    ApplyNone(d);
    if k > 0 {
      LogPrefix(g, d, cache, lh, k - 1);
      ApplySnoc(d, LogWrites(g, d, cache, lh), k - 1);
    }
  }

  lemma {:induction false} InstallPrefix(g: Geometry, d: Disk, lh: seq<int>, k: nat)
    requires g.start + g.size <= |d| && GoodHeader(g, |d|, lh) && k <= |lh|
    ensures var e := Apply(d, InstallWrites(g, d, lh)[..k]);
      && (forall i :: 0 <= i < k ==> e[lh[i]] == d[g.start + 1 + i])
      && (forall b :: 0 <= b < |d| && b !in lh[..k] ==> e[b] == d[b])
  {
    hide Apply;
    ApplyNone(d);
    if k > 0 {
      InstallPrefix(g, d, lh, k - 1);
      ApplySnoc(d, InstallWrites(g, d, lh), k - 1);
      Snoc(lh, k - 1);
    }
  }

  lemma MeaningAt(g: Geometry, d: Disk)
    requires GoodDisk(g, d)
    ensures var lh := HeaderOf(d[g.start]); var e := Meaning(g, d);
      && (forall i :: 0 <= i < |lh| ==> e[lh[i]] == d[g.start + 1 + i])
      && (forall b :: 0 <= b < |d| && b !in lh ==> e[b] == d[b])
  {
    var lh := HeaderOf(d[g.start]);
    InstallPrefix(g, d, lh, |lh|);
    assert InstallWrites(g, d, lh)[..|lh|] == InstallWrites(g, d, lh);
    assert lh[..|lh|] == lh;
  }

  /** A disk whose header is empty means itself. */
  lemma EmptyMeaning(g: Geometry, d: Disk)
    requires GoodDisk(g, d) && HeaderOf(d[g.start]) == []
    ensures Meaning(g, d) == d
  {
  }

  /** Disks with the same log that differ only in blocks about to be installed
    mean the same. */
  lemma SameMeaning(g: Geometry, d: Disk, e: Disk)
    requires GoodDisk(g, d) && |e| == |d|
    requires forall b :: 0 <= b < |d| && b !in HeaderOf(d[g.start]) ==> e[b] == d[b]
    ensures GoodDisk(g, e) && HeaderOf(e[g.start]) == HeaderOf(d[g.start])
    ensures HomeEq(g, Meaning(g, e), Meaning(g, d))
  {
    assert e[g.start] == d[g.start];
    MeaningAt(g, d);
    MeaningAt(g, e);
  }

  lemma InstallKeepsMeaning(g: Geometry, d: Disk, k: nat)
    requires GoodDisk(g, d) && k <= |HeaderOf(d[g.start])|
    ensures var e := Apply(d, InstallWrites(g, d, HeaderOf(d[g.start]))[..k]);
      && GoodDisk(g, e) && e[g.start] == d[g.start]
      && HomeEq(g, Meaning(g, e), Meaning(g, d))
  {
    InstallPrefix(g, d, HeaderOf(d[g.start]), k);
    SameMeaning(g, d, Apply(d, InstallWrites(g, d, HeaderOf(d[g.start]))[..k]));
  }

  lemma RecoveryEnds(g: Geometry, d: Disk)
    requires GoodDisk(g, d)
    ensures var e := Apply(d, RecoveryWrites(g, d));
      && e == Meaning(g, d)[g.start := HeaderWith(d[g.start], [])]
      && GoodDisk(g, e) && HeaderOf(e[g.start]) == []
      && HomeEq(g, e, Meaning(g, d))
  {
    var rw := RecoveryWrites(g, d);
    var iw := InstallWrites(g, d, HeaderOf(d[g.start]));
    assert rw[..|rw| - 1] == iw;
    assert HeaderOf(HeaderWith(d[g.start], [])) == [];
  }

  /** Stopping recovery anywhere keeps the disk recoverable and its meaning. */
  lemma RecoveryPrefix(g: Geometry, d: Disk, k: nat)
    requires GoodDisk(g, d) && k <= |RecoveryWrites(g, d)|
    ensures var e := Apply(d, RecoveryWrites(g, d)[..k]);
      && GoodDisk(g, e)
      && HomeEq(g, Meaning(g, e), Meaning(g, d))
  {
    var rw := RecoveryWrites(g, d);
    if k < |rw| {
      assert rw[..k] == InstallWrites(g, d, HeaderOf(d[g.start]))[..k];
      InstallKeepsMeaning(g, d, k);
    } else {
      assert rw[..k] == rw;
      RecoveryEnds(g, d);
      EmptyMeaning(g, Apply(d, rw));
    }
  }

  lemma CommittedLayout(g: Geometry, d: Disk, cache: map<int, Block>, lh: seq<int>)
    requires GoodDisk(g, d) && GoodHeader(g, |d|, lh)
    ensures var c := Committed(g, d, cache, lh);
      && |c| == |d| && GoodDisk(g, c) && HeaderOf(c[g.start]) == lh
      && (forall i :: 0 <= i < |lh| ==> c[g.start + 1 + i] == View(d, cache, lh[i]))
      && HomeEq(g, c, d)
  {
    LogPrefix(g, d, cache, lh, |lh|);
    assert LogWrites(g, d, cache, lh)[..|lh|] == LogWrites(g, d, cache, lh);
  }

  /** The writes of commit(): the log blocks, the header, and behind it, since the
    header on disk now holds lh, the same writes a recovery would make. */
  function CommitWrites(g: Geometry, d: Disk, cache: map<int, Block>, lh: seq<int>): (ws: seq<Write>)
    requires GoodDisk(g, d) && GoodHeader(g, |d|, lh)
  {
    if lh == [] then [] else
      CommittedLayout(g, d, cache, lh);
      LogWrites(g, d, cache, lh)
      + [Write(g.start, HeaderWith(d[g.start], lh))]
      + RecoveryWrites(g, Committed(g, d, cache, lh))
  }

  lemma CommittedMeaning(g: Geometry, d: Disk, cache: map<int, Block>, lh: seq<int>)
    requires GoodDisk(g, d) && GoodHeader(g, |d|, lh)
    ensures GoodDisk(g, Committed(g, d, cache, lh))
    ensures HomeEq(g, Meaning(g, Committed(g, d, cache, lh)), Overlay(d, cache, lh))
  {
    var c := Committed(g, d, cache, lh);
    CommittedLayout(g, d, cache, lh);
    MeaningAt(g, c);
    var m, o := Meaning(g, c), Overlay(d, cache, lh);
    forall b | 0 <= b < |d| && !InLog(g, b)
      ensures m[b] == o[b]
    {
      if b in lh {
        var i :| 0 <= i < |lh| && lh[i] == b;
      }
    }
  }

  /** Up to the header write, and from it on. */
  lemma CommitSplit(g: Geometry, d: Disk, cache: map<int, Block>, lh: seq<int>)
    requires GoodDisk(g, d) && GoodHeader(g, |d|, lh) && lh != []
    ensures var c := Committed(g, d, cache, lh); var cw := CommitWrites(g, d, cache, lh);
      && GoodDisk(g, c)
      && cw[..|lh|] == LogWrites(g, d, cache, lh)
      && cw[|lh|] == Write(g.start, HeaderWith(d[g.start], lh))
      && |cw| == |lh| + 1 + |RecoveryWrites(g, c)|
      && cw[|lh| + 1..] == RecoveryWrites(g, c)
      && Apply(d, cw[..|lh| + 1]) == c
  {
    CommittedLayout(g, d, cache, lh);
    var lw, rw := LogWrites(g, d, cache, lh), RecoveryWrites(g, Committed(g, d, cache, lh));
    var w := Write(g.start, HeaderWith(d[g.start], lh));
    Split3(lw, w, rw);
    ApplySnoc(d, lw + [w] + rw, |lw|);
  }

  lemma Split3(a: seq<Write>, w: Write, b: seq<Write>)
    ensures (a + [w] + b)[..|a|] == a
    ensures (a + [w] + b)[|a|] == w
    ensures (a + [w] + b)[|a| + 1..] == b
  {
  }

  lemma ApplySplit(d: Disk, ws: seq<Write>, m: nat, k: nat)
    requires m <= k <= |ws|
    ensures Apply(d, ws[..k]) == Apply(Apply(d, ws[..m]), ws[m..][..k - m])
  {
    assert ws[..k] == ws[..m] + ws[m..][..k - m];
    ApplyConcat(d, ws[..m], ws[m..][..k - m]);
  }

  /** Stopping commit before its header write keeps the old meaning. */
  lemma CommitBefore(g: Geometry, d: Disk, cache: map<int, Block>, lh: seq<int>, k: nat)
    requires GoodDisk(g, d) && HeaderOf(d[g.start]) == [] && GoodHeader(g, |d|, lh)
    requires k <= |lh| && k <= |CommitWrites(g, d, cache, lh)|
    ensures var e := Apply(d, CommitWrites(g, d, cache, lh)[..k]);
      && GoodDisk(g, e) && HeaderOf(e[g.start]) == []
      && HomeEq(g, Meaning(g, e), d)
  {
    hide Meaning, Apply, RecoveryWrites, Committed;
    ApplyNone(d);
    var e := Apply(d, CommitWrites(g, d, cache, lh)[..k]);
    if lh != [] {
      CommitSplit(g, d, cache, lh);
      assert CommitWrites(g, d, cache, lh)[..k] == LogWrites(g, d, cache, lh)[..k];
      LogPrefix(g, d, cache, lh, k);
    }
    EmptyMeaning(g, e);
  }

  lemma HomeTrans(g: Geometry, a: Disk, b: Disk, c: Disk)
    requires HomeEq(g, a, b) && HomeEq(g, b, c)
    ensures HomeEq(g, a, c)
  {
  }

  lemma CommitTail(g: Geometry, d: Disk, cache: map<int, Block>, lh: seq<int>, k: nat)
    requires GoodDisk(g, d) && GoodHeader(g, |d|, lh)
    requires |lh| < k <= |CommitWrites(g, d, cache, lh)|
    ensures GoodDisk(g, Committed(g, d, cache, lh))
    ensures var c := Committed(g, d, cache, lh);
      && k - |lh| - 1 <= |RecoveryWrites(g, c)|
      && Apply(d, CommitWrites(g, d, cache, lh)[..k]) == Apply(c, RecoveryWrites(g, c)[..k - |lh| - 1])
  {
    CommitSplit(g, d, cache, lh);
    ApplySplit(d, CommitWrites(g, d, cache, lh), |lh| + 1, k);
  }

  /** Stopping it at or after the header write gives the new meaning. */
  lemma CommitAfter(g: Geometry, d: Disk, cache: map<int, Block>, lh: seq<int>, k: nat)
    requires GoodDisk(g, d) && GoodHeader(g, |d|, lh)
    requires |lh| < k <= |CommitWrites(g, d, cache, lh)|
    ensures var e := Apply(d, CommitWrites(g, d, cache, lh)[..k]);
      && GoodDisk(g, e) && HomeEq(g, Meaning(g, e), Overlay(d, cache, lh))
  {
    hide *;
    var e, c := Apply(d, CommitWrites(g, d, cache, lh)[..k]), Committed(g, d, cache, lh);
    assert GoodDisk(g, c) && GoodDisk(g, e) && HomeEq(g, Meaning(g, e), Meaning(g, c)) by {
      CommitTail(g, d, cache, lh, k);
      RecoveryPrefix(g, c, k - |lh| - 1);
    }
    CommittedMeaning(g, d, cache, lh);
    HomeTrans(g, Meaning(g, e), Meaning(g, c), Overlay(d, cache, lh));
  }

  lemma CommitEnds(g: Geometry, d: Disk, cache: map<int, Block>, lh: seq<int>)
    requires GoodDisk(g, d) && HeaderOf(d[g.start]) == [] && GoodHeader(g, |d|, lh)
    ensures var e := Apply(d, CommitWrites(g, d, cache, lh));
      GoodDisk(g, e) && HeaderOf(e[g.start]) == [] && HomeEq(g, e, Overlay(d, cache, lh))
  {
    if lh != [] {
      CommittedMeaning(g, d, cache, lh);
      CommitSum(g, d, cache, lh);
      RecoveryEnds(g, Committed(g, d, cache, lh));
    }
  }

  lemma LogKeepsHeader(g: Geometry, d: Disk, cache: map<int, Block>, lh: seq<int>)
    requires GoodDisk(g, d) && GoodHeader(g, |d|, lh)
    ensures Apply(d, LogWrites(g, d, cache, lh))[g.start] == d[g.start]
  {
    LogPrefix(g, d, cache, lh, |lh|);
    assert LogWrites(g, d, cache, lh)[..|lh|] == LogWrites(g, d, cache, lh);
  }

  lemma InstallKeepsHeader(g: Geometry, d: Disk)
    requires GoodDisk(g, d)
    ensures Meaning(g, d)[g.start] == d[g.start]
  {
    MeaningAt(g, d);
  }

  lemma CommitSum(g: Geometry, d: Disk, cache: map<int, Block>, lh: seq<int>)
    requires GoodDisk(g, d) && GoodHeader(g, |d|, lh) && lh != []
    ensures GoodDisk(g, Committed(g, d, cache, lh))
    ensures var c := Committed(g, d, cache, lh);
      Apply(d, CommitWrites(g, d, cache, lh)) == Apply(c, RecoveryWrites(g, c))
  {
    var cw := CommitWrites(g, d, cache, lh);
    CommitSplit(g, d, cache, lh);
    assert cw == cw[..|lh| + 1] + cw[|lh| + 1..];
    ApplyConcat(d, cw[..|lh| + 1], cw[|lh| + 1..]);
  }

  lemma Snoc<T>(s: seq<T>, k: nat)
    requires k < |s|
    ensures s[..k + 1] == s[..k] + [s[k]]
  {
  }

  lemma OverwriteStep(lh: seq<int>, before: seq<int>, i: nat)
    requires i < |lh| <= |before|
    ensures (lh[..i] + before[i..])[i := lh[i]] == lh[..i + 1] + before[i + 1..]
  {
  }

  lemma InstallStep(g: Geometry, d: Disk, lh: seq<int>, k: nat)
    requires g.start + g.size <= |d| && GoodHeader(g, |d|, lh) && k < |lh|
    ensures var iw := InstallWrites(g, d, lh); var e := Apply(d, iw[..k]);
      && Apply(d, iw[..k + 1]) == Apply1(e, iw[k])
      && e[g.start + 1 + k] == d[g.start + 1 + k]
  {
    InstallPrefix(g, d, lh, k);
    ApplySnoc(d, InstallWrites(g, d, lh), k);
  }

  lemma LogStep(g: Geometry, d: Disk, cache: map<int, Block>, lh: seq<int>, k: nat)
    requires g.start + g.size <= |d| && GoodHeader(g, |d|, lh) && k < |lh|
    ensures var lw := LogWrites(g, d, cache, lh); var e := Apply(d, lw[..k]);
      && Apply(d, lw[..k + 1]) == Apply1(e, lw[k])
      && e[lh[k]] == d[lh[k]]
  {
    LogPrefix(g, d, cache, lh, k);
    ApplySnoc(d, LogWrites(g, d, cache, lh), k);
  }

  /** A disk that went through recoveries cut short after ks[0], ks[1], ... writes. */
  function CrashChain(g: Geometry, d: Disk, ks: seq<nat>): (r: Disk)
    requires GoodDisk(g, d)
    ensures |r| == |d| && GoodDisk(g, r)
    decreases |ks|
  {
    if ks == [] then d else
      var rw := RecoveryWrites(g, d);
      var k := if ks[0] <= |rw| then ks[0] else |rw|;
      RecoveryPrefix(g, d, k);
      CrashChain(g, Apply(d, rw[..k]), ks[1..])
  }

  lemma {:induction false} ChainKeepsMeaning(g: Geometry, d: Disk, ks: seq<nat>)
    requires GoodDisk(g, d)
    ensures HomeEq(g, Meaning(g, CrashChain(g, d, ks)), Meaning(g, d))
    decreases |ks|
  {
    if ks != [] {
      var rw := RecoveryWrites(g, d);
      var k := if ks[0] <= |rw| then ks[0] else |rw|;
      RecoveryPrefix(g, d, k);
      ChainKeepsMeaning(g, Apply(d, rw[..k]), ks[1..]);
    }
  }

  /** Crash atomicity: whatever write of commit the machine stops after, and however
    often recovery itself is cut short, the recovery that completes leaves all the
    old home blocks or all the new ones, the new ones exactly when the header write
    of commit had happened. */
  lemma CrashAtomicity(g: Geometry, d: Disk, cache: map<int, Block>, lh: seq<int>, k: nat, ks: seq<nat>)
    requires GoodDisk(g, d) && HeaderOf(d[g.start]) == [] && GoodHeader(g, |d|, lh)
    requires k <= |CommitWrites(g, d, cache, lh)|
    ensures GoodDisk(g, Apply(d, CommitWrites(g, d, cache, lh)[..k]))
    ensures var crashed := CrashChain(g, Apply(d, CommitWrites(g, d, cache, lh)[..k]), ks);
      var final := Apply(crashed, RecoveryWrites(g, crashed));
      && HeaderOf(final[g.start]) == []
      && HomeEq(g, final, if k <= |lh| then d else Overlay(d, cache, lh))
  {
    var e := Apply(d, CommitWrites(g, d, cache, lh)[..k]);
    if k <= |lh| {
      CommitBefore(g, d, cache, lh, k);
    } else {
      CommitAfter(g, d, cache, lh, k);
    }
    ChainKeepsMeaning(g, e, ks);
    RecoveryEnds(g, CrashChain(g, e, ks));
  }

  /** log_write's list update: absorbed if already logged, else appended. */
  function Absorb(lh: seq<int>, b: int): (r: seq<int>)
    ensures Distinct(lh) ==> Distinct(r)
    ensures forall x :: x in r <==> x in lh || x == b
  {
    if b in lh then lh else lh + [b]
  }

  datatype Outcome = Done | Asleep | Panic(message: string)

  class Log {
    /** log.start and log.size, set once by initlog. */
    const g: Geometry
    var outstanding: int
    var committing: bool
    var n: nat
    const block: array<int>
    var disk: Disk
    /** The buffers pinned with B_DIRTY by log_write. */
    var cache: map<int, Block>
    /** Every block write so far, in order. */
    ghost var writes: seq<Write>

    ghost function Lh(): (s: seq<int>)
      requires n <= block.Length
      reads this, block
    {
      block[..n]
    }

    /** The in-memory header lists home blocks, and only home blocks are pinned. */
    ghost predicate Valid()
      reads this, block
    {
      && block.Length == LOGSIZE
      && n <= LOGSIZE
      && g.start + g.size <= |disk|
      && GoodHeader(g, |disk|, Lh())
      && forall b :: b in cache ==> !InLog(g, b)
    }

    method Bread(b: int) returns (data: Block)
      requires 0 <= b < |disk|
      ensures data == View(disk, cache, b)
    {
      data := if b in cache then cache[b] else disk[b];
    }

    method Bwrite(b: int, data: Block)
      requires 0 <= b < |disk|
      modifies this`disk, this`cache, this`writes
      ensures disk == Apply1(old(disk), Write(b, data))
      ensures cache == old(cache) - {b}
      ensures writes == old(writes) + [Write(b, data)]
    {
      disk := disk[b := data];
      cache := cache - {b};
      writes := writes + [Write(b, data)];
    }

    method InstallTrans()
      requires Valid()
      modifies this`disk, this`cache, this`writes
      ensures disk == Apply(old(disk), InstallWrites(g, old(disk), Lh()))
      ensures writes == old(writes) + InstallWrites(g, old(disk), Lh())
      ensures cache == old(cache) - set b | b in Lh()
    {
      hide Apply;
      ghost var d, lh := disk, Lh();
      ApplyNone(d);
      ghost var iw := InstallWrites(g, d, lh);
      var tail := 0;
      while tail < n
        invariant 0 <= tail <= n && |disk| == |d|
        invariant disk == Apply(d, iw[..tail])
        invariant writes == old(writes) + iw[..tail]
        invariant cache == old(cache) - set b | b in lh[..tail]
      {
        InstallStep(g, d, lh, tail);
        Snoc(iw, tail);
        Snoc(lh, tail);
        var lbuf := Bread(g.start + tail + 1);
        var dst := block[tail];
        assert dst == lh[tail];
        Bwrite(dst, lbuf);
        tail := tail + 1;
      }
      assert iw[..n] == iw && lh[..n] == lh;
    }

    method ReadHead()
      requires block.Length == LOGSIZE && GoodDisk(g, disk) && g.start !in cache
      modifies this`n, block
      ensures n <= LOGSIZE && Lh() == HeaderOf(disk[g.start])
    {
      var buf := Bread(g.start);
      n := buf.count;
      var i := 0;
      while i < n
        invariant 0 <= i <= n == buf.count
        invariant block[..i] == buf.words[..i]
      {
        block[i] := buf.words[i];
        i := i + 1;
      }
    }

    /** The loop of write_head over the words behind the count. */
    method CopyList(before: seq<int>) returns (words: seq<int>)
      requires n <= block.Length && n <= |before|
      ensures words == Lh() + before[n..]
    {
      ghost var lh := Lh();
      words := before;
      var i := 0;
      while i < n
        invariant 0 <= i <= n
        invariant words == lh[..i] + before[i..]
      {
        OverwriteStep(lh, before, i);
        words := words[i := block[i]];
        i := i + 1;
      }
      assert lh[..n] == lh;
    }

    method WriteHead()
      requires block.Length == LOGSIZE && n <= LOGSIZE && g.start < |disk| && g.start !in cache
      requires LOGSIZE <= |disk[g.start].words|
      modifies this`disk, this`cache, this`writes
      ensures disk == old(disk)[g.start := HeaderWith(old(disk[g.start]), Lh())]
      ensures writes == old(writes) + [Write(g.start, HeaderWith(old(disk[g.start]), Lh()))]
      ensures cache == old(cache)
    {
      var buf := Bread(g.start);
      var words := CopyList(buf.words);
      Bwrite(g.start, Block(n, words));
    }

    /** recover_from_log() from any recoverable disk, with nothing in memory. */
    method RecoverFromLog()
      requires block.Length == LOGSIZE && GoodDisk(g, disk) && cache == map[]
      modifies this`n, this`disk, this`cache, this`writes, block
      ensures Valid() && n == 0 && cache == map[]
      ensures disk == Apply(old(disk), RecoveryWrites(g, old(disk)))
      ensures writes == old(writes) + RecoveryWrites(g, old(disk))
      ensures HeaderOf(disk[g.start]) == [] && HomeEq(g, disk, Meaning(g, old(disk)))
    {
      hide Apply, InstallWrites;
      RecoveryEnds(g, disk);
      InstallKeepsHeader(g, disk);
      ReadHead();
      InstallTrans();
      n := 0;
      assert Lh() == [];
      WriteHead();
    }

    method WriteLog()
      requires Valid()
      modifies this`disk, this`cache, this`writes
      ensures disk == Apply(old(disk), LogWrites(g, old(disk), cache, Lh()))
      ensures writes == old(writes) + LogWrites(g, old(disk), cache, Lh())
      ensures cache == old(cache)
    {
      hide Apply;
      ghost var d, lh := disk, Lh();
      ApplyNone(d);
      ghost var lw := LogWrites(g, d, cache, lh);
      var tail := 0;
      while tail < n
        invariant 0 <= tail <= n && |disk| == |d|
        invariant cache == old(cache)
        invariant disk == Apply(d, lw[..tail])
        invariant writes == old(writes) + lw[..tail]
      {
        LogStep(g, d, cache, lh, tail);
        Snoc(lw, tail);
        var src := block[tail];
        assert src == lh[tail];
        var from := Bread(src);
        Bwrite(g.start + tail + 1, from);
        tail := tail + 1;
      }
      assert lw[..n] == lw;
    }

    /** commit() performs CommitWrites and nothing else; with CrashAtomicity this
      covers stopping it between any two of its block writes. */
    method Commit()
      requires Valid() && GoodDisk(g, disk)
      modifies this`n, this`disk, this`cache, this`writes
      ensures Valid() && n == 0
      ensures writes == old(writes) + CommitWrites(g, old(disk), old(cache), old(Lh()))
      ensures disk == Apply(old(disk), CommitWrites(g, old(disk), old(cache), old(Lh())))
      ensures cache == old(cache) - set b | b in old(Lh())
    {
      hide Apply, InstallWrites, LogWrites, GoodHeader, HeaderWith, HeaderOf, Overlay, View;
      ghost var d, c0, lh := disk, cache, Lh();
      ApplyNone(d);
      if n > 0 {
        LogKeepsHeader(g, d, c0, lh);
        CommittedLayout(g, d, c0, lh);
        ghost var c := Committed(g, d, c0, lh);
        InstallKeepsHeader(g, c);
        RecoveryEnds(g, c);
        CommitSum(g, d, c0, lh);
        WriteLog();
        WriteHead();
        assert disk == c;
        InstallTrans();
        n := 0;
        assert Lh() == [];
        WriteHead();
        assert writes == old(writes) + CommitWrites(g, d, c0, lh);
      }
    }

    /** One round of begin_op's loop under the log lock. */
    method BeginOp() returns (r: Outcome)
      modifies this`outstanding
      ensures r == Done || r == Asleep
      ensures r == Done <==> !committing && n + (old(outstanding) + 1) * MAXOPBLOCKS <= LOGSIZE
      ensures outstanding == if r == Done then old(outstanding) + 1 else old(outstanding)
    {
      if committing {
        r := Asleep;
      } else if n + (outstanding + 1) * MAXOPBLOCKS > LOGSIZE {
        r := Asleep;
      } else {
        outstanding := outstanding + 1;
        r := Done;
      }
    }

    /** end_op with no other process in between; LogSystem has the interleavings. */
    method EndOp() returns (r: Outcome)
      requires Valid() && GoodDisk(g, disk)
      modifies this
      ensures old(committing) ==> r.Panic?
      ensures !old(committing) ==> r == Done && !committing && Valid()
      ensures outstanding == old(outstanding) - 1
      ensures !old(committing) && old(outstanding) == 1 ==>
        (&& n == 0
         && writes == old(writes) + CommitWrites(g, old(disk), old(cache), old(Lh()))
         && disk == Apply(old(disk), CommitWrites(g, old(disk), old(cache), old(Lh())))
         && cache == old(cache) - set b | b in old(Lh()))
      ensures !old(committing) && old(outstanding) != 1 ==>
        disk == old(disk) && cache == old(cache) && writes == old(writes) && n == old(n)
    {
      outstanding := outstanding - 1;
      if committing {
        return Panic("log.committing");
      }
      if outstanding == 0 {
        committing := true;
        Commit();
        committing := false;
      }
      r := Done;
    }

    method LogWrite(b: int, data: Block) returns (r: Outcome)
      requires Valid() && 0 <= b < |disk| && !InLog(g, b)
      modifies this`n, this`cache, block
      ensures Valid()
      ensures r == Done <==> old(n) < LOGSIZE && old(n) < g.size - 1 && outstanding >= 1
      ensures r == Done ==> Lh() == Absorb(old(Lh()), b) && cache == old(cache)[b := data]
      ensures r != Done ==> r.Panic? && Lh() == old(Lh()) && cache == old(cache)
    {
      if n >= LOGSIZE || n >= g.size - 1 {
        return Panic("too big a transaction");
      }
      if outstanding < 1 {
        return Panic("log_write outside of trans");
      }
      ghost var lh := Lh();
      var i := 0;
      while i < n && block[i] != b
        invariant 0 <= i <= n
        invariant b !in lh[..i]
      {
        i := i + 1;
      }
      block[i] := b;
      if i == n {
        n := n + 1;
        assert Lh() == lh + [b];
      } else {
        assert lh[i] == b && Lh() == lh;
      }
      cache := cache[b := data];
      r := Done;
    }
  }
}
