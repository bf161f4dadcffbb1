/**
 The walk of a source tree. Unless the client is privileged, the walker cannot
 look at what is in a directory that is closed: it reports a denied permission
 for each entry there, and knows nothing of what is deeper.
 */
module TreeWalk {
  import opened Wrappers
  import opened Paths
  import opened RemoteFs
  import opened RemotePaths
  import opened MainLoop
  import opened DirWalk
  import opened Copies
  import opened RecursivePut

  // ------------------------------------------------------------- what can be seen

  /** Is there a closed directory above `r`? */
  ghost predicate Hidden(src: Fs, r: Path) {
    exists k :: 0 <= k < |r| && Has(src, r[..k], Dir(false))
  }

  ghost predicate Visible(src: Fs, privileged: bool, r: Path) {
    privileged || !Hidden(src, r)
  }

  /** The part of the tree that the walker can look at. */
  ghost function Seen(src: Fs, privileged: bool): Fs {
    map r | r in src && Visible(src, privileged, r) :: src[r]
  }

  ghost function SeenOf(src: Fs, privileged: bool, order: seq<Path>): seq<Path> {
    if order == [] then []
    else SeenOf(src, privileged, Init(order)) + if Visible(src, privileged, Last(order)) then [Last(order)] else []
  }

  ghost function ItemsAt(root: string, src: Fs, privileged: bool, r: Path): seq<WalkItem>
    requires r in src
  {
    if Visible(src, privileged, r) then [Entry(Some(SourceOf(root, r)), |r|, src[r].Dir?)]
    else if r != [] && Hidden(src, Init(r)) then []
    else [Problem(true)]
  }

  /** What the walker yields for a source tree, in some order. */
  ghost function Items(root: string, src: Fs, privileged: bool, order: seq<Path>): seq<WalkItem>
    requires Covers(order, src)
  {
    if order == [] then []
    else
      InitIsCovered(order, src);
      Items(root, src, privileged, Init(order)) + ItemsAt(root, src, privileged, Last(order))
  }

  lemma InitIsHidden(src: Fs, r: Path)
    requires r != [] && Hidden(src, Init(r))
    ensures Hidden(src, r)
  {
    var up := Init(r);
    var k :| 0 <= k < |up| && Has(src, up[..k], Dir(false));
    assert r[..k] == up[..k];
  }

  /** That is a tree as well. */
  lemma SeenIsTree(src: Fs, privileged: bool)
    requires IsTree(src)
    ensures IsTree(Seen(src, privileged))
  {
    var seen := Seen(src, privileged);
    assert !Hidden(src, []);
    forall r | r in seen ensures AreNames(r) && InDirectory(seen, r) {
      EntryIsNamed(src, r);
      if r != [] && Hidden(src, Init(r)) {
        InitIsHidden(src, r);
      }
    }
  }

  // -------------------------------------------------------------- orders of a walk

  /** A whole walk: every entry of the tree once, directories first. */
  ghost predicate WalkOrder(full: seq<Path>, src: Fs) {
    && Covers(full, src) && ParentFirst(full, 0) && Distinct(full)
    && forall r :: r in src ==> r in full
  }

  function AtLeast(order: seq<Path>, depth: nat): seq<Path> {
    if order == [] then []
    else AtLeast(Init(order), depth) + if |Last(order)| >= depth then [Last(order)] else []
  }

  lemma {:induction false} AtLeastIs(full: seq<Path>, depth: nat, n: nat)
    requires depth <= 1 && n <= |full| && (forall i :: 0 <= i < |full| ==> (full[i] == [] <==> i == 0))
    ensures AtLeast(full[..n], depth) == if n == 0 || depth == 0 then full[..n] else full[1..n]
  {
    if n == 0 {
    } else {
      assert Init(full[..n]) == full[..n - 1] && Last(full[..n]) == full[n - 1];
      AtLeastIs(full, depth, n - 1);
    }
  }

  lemma OnlyFirstIsRoot(full: seq<Path>, src: Fs)
    requires WalkOrder(full, src) && IsTree(src)
    ensures full != [] && forall i :: 0 <= i < |full| ==> (full[i] == [] <==> i == 0)
  {
    var j :| 0 <= j < |full| && full[j] == [];
    FirstEntry(full, 0);
  }

  lemma TailIsParentFirst(full: seq<Path>)
    requires full != [] && full[0] == [] && ParentFirst(full, 0)
    requires forall i :: 0 <= i < |full| ==> (full[i] == [] <==> i == 0)
    ensures ParentFirst(full[1..], 1)
  {
    var order := full[1..];
    forall i | 0 <= i < |order| ensures Follows(order, 1, i) {
      assert order[i] == full[i + 1] && Follows(full, 0, i + 1);
      if |order[i]| > 1 {
        var k :| 0 <= k < i + 1 && full[k] == Init(order[i]);
        assert k >= 1 && order[..i][k - 1] == Init(order[i]);
      }
    }
  }

  lemma TailIsCovered(full: seq<Path>, src: Fs)
    requires full != [] && Covers(full, src)
    ensures Covers(full[1..], src)
  {
  }

  lemma TailIsDistinct(full: seq<Path>)
    requires full != [] && Distinct(full)
    ensures Distinct(full[1..])
  {
  }

  lemma TailHasTheRest(full: seq<Path>, r: Path)
    requires full != [] && full[0] == [] && r in full && r != []
    ensures r in full[1..]
  {
    var k :| 0 <= k < |full| && full[k] == r;
    assert full[1..][k - 1] == r;
  }

  /** The entries that are copied come parent first too. */
  lemma CopiedOrder(full: seq<Path>, src: Fs, depth: nat)
    requires WalkOrder(full, src) && IsTree(src) && depth <= 1
    ensures
      var order := AtLeast(full, depth);
      && Covers(order, src) && ParentFirst(order, depth) && Distinct(order)
      && (forall r :: r in src && |r| >= depth ==> r in order)
      && |order| == |full| - depth
  {
    hide AtLeast, ParentFirst, Distinct, IsTree, Covers;
    OnlyFirstIsRoot(full, src);
    AtLeastIs(full, depth, |full|);
    assert full[..|full|] == full;
    if depth == 1 {
      TailIsCovered(full, src);
      TailIsParentFirst(full);
      TailIsDistinct(full);
      forall r | r in src && |r| >= 1 ensures r in full[1..] {
        TailHasTheRest(full, r);
      }
    }
  }

  lemma {:induction false} SeenAre(src: Fs, privileged: bool, order: seq<Path>)
    requires Covers(order, src)
    ensures Covers(SeenOf(src, privileged, order), Seen(src, privileged))
    ensures forall r :: r in SeenOf(src, privileged, order) <==> r in order && Visible(src, privileged, r)
  {
    hide Visible;
    if order == [] {
    } else {
      InitIsCovered(order, src);
      SeenAre(src, privileged, Init(order));
      assert order == Init(order) + [Last(order)];
    }
  }

  lemma {:induction false} SeenAreDistinct(src: Fs, privileged: bool, order: seq<Path>)
    requires Covers(order, src) && Distinct(order)
    ensures Distinct(SeenOf(src, privileged, order))
  {
    hide Visible;
    if order == [] {
    } else {
      InitIsCovered(order, src);
      SeenAreDistinct(src, privileged, Init(order));
      SeenAre(src, privileged, Init(order));
      var before := SeenOf(src, privileged, Init(order));
      forall i | 0 <= i < |before| ensures before[i] != Last(order) {
        assert before[i] in Init(order);
      }
    }
  }

  lemma {:induction false} SeenAreParentFirst(src: Fs, privileged: bool, order: seq<Path>)
    requires Covers(order, src) && ParentFirst(order, 0)
    ensures ParentFirst(SeenOf(src, privileged, order), 0)
  {
    hide Visible;
    if order == [] {
    } else {
      var init, r := Init(order), Last(order);
      InitIsCovered(order, src);
      ShorterIsParentFirst(order);
      SeenAreParentFirst(src, privileged, init);
      SeenAre(src, privileged, init);
      var before, seen := SeenOf(src, privileged, init), SeenOf(src, privileged, order);
      if Visible(src, privileged, r) {
        if r != [] {
          ParentIsSeen(src, privileged, order);
        }
        forall i | 0 <= i < |seen| ensures Follows(seen, 0, i) {
          if i < |before| {
            assert Follows(before, 0, i) && seen[..i] == before[..i];
          } else {
            assert seen[..i] == before;
          }
        }
      } else {
        assert seen == before;
      }
    }
  }

  lemma ShorterIsParentFirst(order: seq<Path>)
    requires order != [] && ParentFirst(order, 0)
    ensures ParentFirst(Init(order), 0)
  {
    var init := Init(order);
    forall i | 0 <= i < |init| ensures Follows(init, 0, i) {
      assert Follows(order, 0, i) && init[..i] == order[..i];
    }
  }

  /** The last entry comes after its directory, which is visible if the entry is. */
  lemma ParentIsSeen(src: Fs, privileged: bool, order: seq<Path>)
    requires order != [] && ParentFirst(order, 0) && Last(order) != []
    ensures Init(Last(order)) in Init(order)
    ensures Visible(src, privileged, Last(order)) ==> Visible(src, privileged, Init(Last(order)))
  {
    var r := Last(order);
    assert Follows(order, 0, |order| - 1);
    assert order[..|order| - 1] == Init(order);
    if Hidden(src, Init(r)) {
      InitIsHidden(src, r);
    }
  }

  /** What is seen of a whole walk is a whole walk of what can be seen. */
  lemma SeenWalk(src: Fs, privileged: bool, full: seq<Path>)
    requires WalkOrder(full, src)
    ensures WalkOrder(SeenOf(src, privileged, full), Seen(src, privileged))
  {
    hide ParentFirst, Distinct, SeenOf, Visible, Covers;
    SeenAre(src, privileged, full);
    SeenAreDistinct(src, privileged, full);
    SeenAreParentFirst(src, privileged, full);
  }

  ghost predicate AllSeen(src: Fs, privileged: bool, order: seq<Path>) {
    forall i :: 0 <= i < |order| ==> Visible(src, privileged, order[i])
  }

  lemma AllSeenIsWhole(src: Fs, privileged: bool, full: seq<Path>)
    requires WalkOrder(full, src)
    ensures AllSeen(src, privileged, full) <==> Seen(src, privileged) == src
  {
    hide ParentFirst, Distinct, Visible;
    if AllSeen(src, privileged, full) {
      forall r | r in src ensures Visible(src, privileged, r) {
        var i :| 0 <= i < |full| && full[i] == r;
      }
    } else {
      var i :| 0 <= i < |full| && !Visible(src, privileged, full[i]);
      assert full[i] in src && full[i] !in Seen(src, privileged);
    }
  }

  // --------------------------------------------------------------- from walk to jobs

  ghost function Lines(root: string, src: Fs, rels: seq<Path>): (es: seq<Listed>)
    requires Covers(rels, src)
    ensures |es| == |rels|
    ensures forall i :: 0 <= i < |rels| ==> es[i] == Listed(SourceOf(root, rels[i]), src[rels[i]].Dir?, Join(rels[i]))
  {
    seq(|rels|, i requires 0 <= i < |rels| => Listed(SourceOf(root, rels[i]), src[rels[i]].Dir?, Join(rels[i])))
  }

  lemma LeafOfEntry(root: string, r: Path)
    requires root != "" && AreNames(r)
    ensures |r| <= |Components(SourceOf(root, r))| && Leaf(SourceOf(root, r), |r|) == Join(r)
  {
    if r != [] {
      ComponentsOfJoin(root, r);
      hide Components, Join, SourceOf;
      var cs := Components(SourceOf(root, r));
      assert cs[|cs| - |r|..] == r;
    }
  }

  lemma ListingSnoc(walk: seq<WalkItem>, path: string, d: nat, isDir: bool, depth: nat)
    requires Sound(walk) && Sound(walk + [Entry(Some(path), d, isDir)]) && d <= |Components(path)|
    ensures
      Listing(walk + [Entry(Some(path), d, isDir)], depth) ==
        match Listing(walk, depth)
        case Err(e) => Err(e)
        case Ok((ok, es)) => Ok((ok, es + if d < depth then [] else [Listed(path, isDir, Leaf(path, d))]))
  {
    hide Leaf, Components;
    var item := Entry(Some(path), d, isDir);
    assert (walk + [item])[..|walk|] == walk;
    if d < depth && Listing(walk, depth).Ok? {
      var es := Listing(walk, depth).value.1;
      assert es + [] == es;
    }
  }

  lemma InitIsCovered(order: seq<Path>, src: Fs)
    requires order != [] && Covers(order, src)
    ensures Covers(Init(order), src) && Last(order) in src
  {
    assert order[|order| - 1] in src;
  }

  lemma LinesSnoc(root: string, src: Fs, rels: seq<Path>, r: Path)
    requires Covers(rels, src) && r in src
    ensures Covers(rels + [r], src)
    ensures Lines(root, src, rels + [r]) == Lines(root, src, rels) + [Listed(SourceOf(root, r), src[r].Dir?, Join(r))]
  {
    hide SourceOf, Join;
  }

  lemma ItemSound(root: string, src: Fs, r: Path)
    requires root != "" && IsTree(src) && r in src
    ensures |r| <= |Components(SourceOf(root, r))| && Leaf(SourceOf(root, r), |r|) == Join(r)
  {
    EntryIsNamed(src, r);
    LeafOfEntry(root, r);
  }

  lemma {:induction false} ItemsAreSound(root: string, src: Fs, privileged: bool, order: seq<Path>)
    requires root != "" && IsTree(src) && Covers(order, src)
    ensures Sound(Items(root, src, privileged, order))
  {
    hide Components, SourceOf, IsTree, Visible, Hidden;
    if order == [] {
    } else {
      InitIsCovered(order, src);
      ItemsAreSound(root, src, privileged, Init(order));
      ItemSound(root, src, Last(order));
    }
  }

  /** One item more. */
  lemma ListingOfProblem(walk: seq<WalkItem>, depth: nat)
    requires Sound(walk) && Sound(walk + [Problem(true)])
    ensures
      Listing(walk + [Problem(true)], depth) ==
        match Listing(walk, depth)
        case Err(e) => Err(e)
        case Ok((ok, es)) => Ok((false, es))
  {
    assert (walk + [Problem(true)])[..|walk|] == walk;
  }

  lemma AllSeenSnoc(src: Fs, privileged: bool, order: seq<Path>)
    requires order != []
    ensures AllSeen(src, privileged, order) <==>
            AllSeen(src, privileged, Init(order)) && Visible(src, privileged, Last(order))
  {
    hide Visible;
    var init := Init(order);
    assert forall i :: 0 <= i < |init| ==> init[i] == order[i];
  }

  /** An entry that the walker knows nothing of is below one that it reports. */
  lemma ReportedAbove(src: Fs, privileged: bool, order: seq<Path>)
    requires order != [] && ParentFirst(order, 0) && Last(order) != []
    requires !privileged && Hidden(src, Init(Last(order)))
    ensures !AllSeen(src, privileged, Init(order))
  {
    hide Hidden;
    ParentIsSeen(src, privileged, order);
    var i :| 0 <= i < |Init(order)| && Init(order)[i] == Init(Last(order));
  }

  lemma AtLeastSnoc(order: seq<Path>, r: Path, depth: nat)
    ensures AtLeast(order + [r], depth) == AtLeast(order, depth) + if |r| >= depth then [r] else []
  {
    assert Init(order + [r]) == order && Last(order + [r]) == r;
  }

  lemma {:induction false} ListingOfItems(root: string, src: Fs, privileged: bool, order: seq<Path>, depth: nat)
    requires root != "" && IsTree(src) && Covers(order, src) && ParentFirst(order, 0)
    ensures Sound(Items(root, src, privileged, order))
    ensures
      var listed := AtLeast(SeenOf(src, privileged, order), depth);
      && Covers(listed, src)
      && Listing(Items(root, src, privileged, order), depth) ==
         Ok((AllSeen(src, privileged, order), Lines(root, src, listed)))
  {
    ItemsAreSound(root, src, privileged, order);
    if order == [] {
    } else {
      var init, r := Init(order), Last(order);
      InitIsCovered(order, src);
      ShorterIsParentFirst(order);
      ListingOfItems(root, src, privileged, init, depth);
      AllSeenSnoc(src, privileged, order);
      hide Leaf, Components, SourceOf, IsTree, Join, Listing, Sound, Covers, Lines, Visible, Hidden, ParentFirst,
           AllSeen, AtLeast;
      var walk, listed := Items(root, src, privileged, init), SeenOf(src, privileged, init);
      if Visible(src, privileged, r) {
        ItemSound(root, src, r);
        ListingSnoc(walk, SourceOf(root, r), |r|, src[r].Dir?, depth);
        AtLeastSnoc(listed, r, depth);
        LinesSnoc(root, src, AtLeast(listed, depth), r);
        assert AtLeast(listed, depth) + [] == AtLeast(listed, depth);
        assert Lines(root, src, AtLeast(listed, depth)) + [] == Lines(root, src, AtLeast(listed, depth));
      } else {
        assert !privileged by { SomeoneLooks(src, privileged, r); }
        assert listed + [] == listed;
        if r != [] && Hidden(src, Init(r)) {
          ReportedAbove(src, privileged, order);
          assert walk + [] == walk;
        } else {
          ListingOfProblem(walk, depth);
        }
      }
    }
  }

  lemma SomeoneLooks(src: Fs, privileged: bool, r: Path)
    requires !Visible(src, privileged, r)
    ensures !privileged
  {
  }

  lemma LinesOfSeen(root: string, src: Fs, privileged: bool, rels: seq<Path>)
    requires Covers(rels, src) && Covers(rels, Seen(src, privileged))
    ensures Lines(root, src, rels) == Lines(root, Seen(src, privileged), rels)
  {
    hide SourceOf, Join;
  }

  /** The circumstances of a copy of what can be seen of a tree, in the order of a whole walk. */
  ghost predicate CopiesWalk(c: Copy, whole: Fs, privileged: bool, full: seq<Path>) {
    && IsTree(whole) && WalkOrder(full, whole)
    && c.src == Seen(whole, privileged) && c.order == AtLeast(SeenOf(whole, privileged, full), c.First())
  }

  /**
   The jobs that the walk of a source tree gives are those of the copy of what
   can be seen of it, and the walk counts as complete exactly when that is all.
   */
  lemma JobsOfWalk(c: Copy, whole: Fs, privileged: bool, full: seq<Path>, host: string, destination: string,
                   preserve: bool)
    requires c.Given() && CopiesWalk(c, whole, privileged, full) && c.stem == DestinationStem(c.root, destination)
    ensures
      && Sound(Items(c.root, whole, privileged, full))
      && SourceJobs(FileSpec(None, c.root), FileSpec(Some(host), destination), preserve,
         Items(c.root, whole, privileged, full)) ==
         Ok((c.src == whole, Jobs(c, host, preserve)))
  {
    hide IsFs, Target, ParentFirst, Distinct, IsTree, LastPart, Listing, Items, SourceOf, Split, AtLeast, SeenOf,
         Visible, AllSeen;
    ListingOfItems(c.root, whole, privileged, full, c.First());
    AllSeenIsWhole(whole, privileged, full);
    LinesOfSeen(c.root, whole, privileged, c.order);
    var lines := Lines(c.root, c.src, c.order);
    var jobs := EntryJobs(FileSpec(None, c.root), FileSpec(Some(host), destination), preserve, c.stem, lines);
    assert jobs == Jobs(c, host, preserve);
  }

  /** A copy of a walk copies everything that can be seen, without the root when there is no destination. */
  lemma CopiesEverything(c: Copy, whole: Fs, privileged: bool, full: seq<Path>)
    requires CopiesWalk(c, whole, privileged, full)
    ensures
      && IsTree(c.src) && Covers(c.order, c.src) && ParentFirst(c.order, c.First()) && Distinct(c.order)
      && forall r :: r in c.src && |r| >= c.First() ==> r in c.order
  {
    hide IsTree, ParentFirst, Distinct, Covers, WalkOrder, AtLeast, SeenOf, Seen;
    SeenIsTree(whole, privileged);
    SeenWalk(whole, privileged, full);
    CopiedOrder(SeenOf(whole, privileged, full), c.src, c.First());
  }
}
