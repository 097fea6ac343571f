/**
 * The identity registry `uidAppIds` of the power estimator: a map from uid to
 * the application name last resolved for it (`None` where Java keeps `null`).
 * Each iteration visits every (component, uid) pair that has data, in
 * component order, records the uid, and writes an `associate` line when an
 * application's name is new or has changed.  The header of the first
 * logged iteration lists the application uids the registry holds.
 */
module Registry {
  import opened Wrappers
  import opened Constants
  import opened LogText

  type Names = map<int, Option<string>>

  /** The registry after a run of visits, and the `associate` lines those visits wrote. */
  datatype Update = Update(names: Names, lines: seq<string>)

  /** `uidAppIds.get(uid)`: a missing key reads as `null`. */
  function Lookup(names: Names, uid: int): Option<string> {
    if uid in names then names[uid] else None
  }

  /** The entry a visit leaves for `uid`: system uids are recorded without a name. */
  function Expected(uid: int, resolve: int -> Option<string>): Option<string> {
    if uid < AID_APP then None else resolve(uid)
  }

  /** The application had no name before, or had a different one. */
  predicate NameChanged(previous: Option<string>, resolved: Option<string>) {
    previous.None? || previous != resolved
  }

  /**
   * Incremental `associate` lines are held back on the first logged
   * iteration (its header lists the registry instead) and when there is no log.
   */
  predicate Suppressed(firstLogIteration: bool, logOpen: bool) {
    firstLogIteration || !logOpen
  }

  /** Whether visiting `uid` against the registry `names` writes an `associate` line. */
  predicate Announces(names: Names, uid: int, suppress: bool, resolve: int -> Option<string>) {
    uid >= AID_APP && !suppress && NameChanged(Lookup(names, uid), resolve(uid))
  }

  /** One visit of the update loop: record `uid`, maybe announce its name. */
  function Visit(u: Update, uid: int, suppress: bool, resolve: int -> Option<string>): Update {
    var line := if Announces(u.names, uid, suppress, resolve) then [AssociateLine(uid, resolve(uid))] else [];
    Update(u.names[uid := Expected(uid, resolve)], u.lines + line)
  }

  /** The visits of one iteration, in order, starting from the registry `start`. */
  function Fold(start: Names, uids: seq<int>, suppress: bool, resolve: int -> Option<string>): Update
    decreases |uids|
  {
    if uids == [] then Update(start, [])
    else Visit(Fold(start, uids[..|uids| - 1], suppress, resolve), uids[|uids| - 1], suppress, resolve)
  }

  /** Visiting one more uid continues the fold. */
  lemma FoldSnoc(start: Names, uids: seq<int>, uid: int, suppress: bool, resolve: int -> Option<string>)
    ensures Fold(start, uids + [uid], suppress, resolve) == Visit(Fold(start, uids, suppress, resolve), uid, suppress, resolve)
  {
    assert (uids + [uid])[..|uids|] == uids;
  }

  /** Whether some line of `lines` is an `associate` line about `uid`. */
  ghost predicate Mentions(lines: seq<string>, uid: int) {
    exists k :: 0 <= k < |lines| && AssociatedUid(lines[k]) == Some(uid)
  }

  /**
   * After the update every uid seen maps to its expected entry (system uids
   * to `None`, applications to the resolved name), every other entry is as
   * it was, and no entry is removed.
   */
  lemma {:induction false} FoldNames(start: Names, uids: seq<int>, suppress: bool, resolve: int -> Option<string>)
    ensures var r := Fold(start, uids, suppress, resolve).names;
      && (forall v :: v in r <==> v in start || v in uids)
      && (forall v :: v in uids ==> r[v] == Expected(v, resolve))
      && (forall v :: v in start && v !in uids ==> r[v] == start[v])
    decreases |uids|
  {
    if uids != [] {
      var init := uids[..|uids| - 1];
      assert uids == init + [uids[|uids| - 1]];
      FoldNames(start, init, suppress, resolve);
    }
  }

  /** Nothing is announced on the first logged iteration or without a log. */
  lemma {:induction false} FoldSuppressed(start: Names, uids: seq<int>, suppress: bool, resolve: int -> Option<string>)
    requires suppress
    ensures Fold(start, uids, suppress, resolve).lines == []
    decreases |uids|
  {
    if uids != [] {
      FoldSuppressed(start, uids[..|uids| - 1], suppress, resolve);
    }
  }

  /** `line` is `associate+<uid>+<resolved name>` for an application uid among `uids`. */
  predicate AssociationOf(line: string, uids: seq<int>, resolve: int -> Option<string>) {
    var uid := AssociatedUid(line);
    uid.Some? && uid.value in uids && uid.value >= AID_APP && line == AssociateLine(uid.value, resolve(uid.value))
  }

  /** Every line the update writes announces the resolved name of an application uid it visited. */
  lemma {:induction false} FoldLinesAreAssociations(start: Names, uids: seq<int>, suppress: bool, resolve: int -> Option<string>)
    ensures forall line :: line in Fold(start, uids, suppress, resolve).lines ==> AssociationOf(line, uids, resolve)
    decreases |uids|
  {
    if uids != [] {
      var init := uids[..|uids| - 1];
      var last := uids[|uids| - 1];
      assert uids == init + [last];
      var prev := Fold(start, init, suppress, resolve).lines;
      FoldLinesAreAssociations(start, init, suppress, resolve);
      AssociateLineRoundTrip(last, resolve(last));
      forall line | line in prev ensures AssociationOf(line, uids, resolve) {
        assert AssociationOf(line, init, resolve);
      }
    }
  }

  lemma MentionsAppend(a: seq<string>, b: seq<string>, uid: int)
    ensures Mentions(a + b, uid) <==> Mentions(a, uid) || Mentions(b, uid)
  {
    if Mentions(a + b, uid) {
      var k :| 0 <= k < |a + b| && AssociatedUid((a + b)[k]) == Some(uid);
      if k >= |a| {
        assert b[k - |a|] == (a + b)[k];
      }
    }
    if Mentions(b, uid) {
      var k :| 0 <= k < |b| && AssociatedUid(b[k]) == Some(uid);
      assert (a + b)[|a| + k] == b[k];
    }
    if Mentions(a, uid) {
      var k :| 0 <= k < |a| && AssociatedUid(a[k]) == Some(uid);
      assert (a + b)[k] == a[k];
    }
  }

  /**
   * An `associate` line about `uid` is written during the update if and only
   * if `uid` was visited, is an application uid, lines are not held back, and
   * the name held before the update was `null` or differs from the resolved one.
   */
  lemma {:induction false} FoldAnnounces(start: Names, uids: seq<int>, suppress: bool, resolve: int -> Option<string>, uid: int)
    ensures Mentions(Fold(start, uids, suppress, resolve).lines, uid)
            <==> uid in uids && Announces(start, uid, suppress, resolve)
    decreases |uids|
  {
    if uids == [] {
      assert !Mentions([], uid);
    } else {
      var init := uids[..|uids| - 1];
      var last := uids[|uids| - 1];
      assert uids == init + [last];
      var prev := Fold(start, init, suppress, resolve);
      FoldAnnounces(start, init, suppress, resolve, uid);
      FoldNames(start, init, suppress, resolve);
      var line := if Announces(prev.names, last, suppress, resolve) then [AssociateLine(last, resolve(last))] else [];
      assert Fold(start, uids, suppress, resolve).lines == prev.lines + line;
      MentionsAppend(prev.lines, line, uid);
      AssociateLineRoundTrip(last, resolve(last));
      if line != [] {
        assert Mentions(line, uid) <==> last == uid by {
          assert AssociatedUid(line[0]) == Some(last);
        }
      } else {
        assert !Mentions(line, uid);
      }
      if last == uid && uid !in init {
        assert Lookup(prev.names, uid) == Lookup(start, uid);
      }
    }
  }

  /** An update that meets only uids whose names are already known and unchanged writes nothing. */
  lemma NoChangeNoAssociation(start: Names, uids: seq<int>, suppress: bool, resolve: int -> Option<string>)
    requires forall v :: v in uids && v >= AID_APP ==> resolve(v).Some? && Lookup(start, v) == resolve(v)
    ensures Fold(start, uids, suppress, resolve).lines == []
  {
    var lines := Fold(start, uids, suppress, resolve).lines;
    FoldLinesAreAssociations(start, uids, suppress, resolve);
    if lines != [] {
      assert AssociationOf(lines[0], uids, resolve);
      var v := AssociatedUid(lines[0]).value;
      assert Mentions(lines, v);
      FoldAnnounces(start, uids, suppress, resolve, v);
    }
  }

  /**
   * An application first seen on the first logged iteration is recorded
   * silently; a later visit that resolves a different name writes exactly
   * one `associate` line (`RenameAnnouncedOnce` covers a whole pass).
   */
  lemma FirstSightingThenRename(start: Names, uid: int, r1: int -> Option<string>, r2: int -> Option<string>)
    requires uid >= AID_APP && uid !in start
    requires r1(uid).Some? && r2(uid).Some? && r1(uid) != r2(uid)
    ensures var u1 := Fold(start, [uid], Suppressed(true, true), r1);
      && u1.lines == []
      && u1.names == start[uid := r1(uid)]
      && Fold(u1.names, [uid], Suppressed(false, true), r2).lines == [AssociateLine(uid, r2(uid))]
  {
    assert [uid][..0] == [];
  }

  /** The number of `associate` lines of `lines` about `uid`. */
  function CountAbout(lines: seq<string>, uid: int): nat
    decreases |lines|
  {
    if lines == [] then 0
    else CountAbout(lines[..|lines| - 1], uid) + (if AssociatedUid(lines[|lines| - 1]) == Some(uid) then 1 else 0)
  }

  lemma {:induction false} CountAboutAppend(a: seq<string>, b: seq<string>, uid: int)
    ensures CountAbout(a + b, uid) == CountAbout(a, uid) + CountAbout(b, uid)
    decreases |b|
  {
    if b == [] {
      assert a + b == a;
    } else {
      var init := b[..|b| - 1];
      assert (a + b)[..|a + b| - 1] == a + init;
      assert (a + b)[|a + b| - 1] == b[|b| - 1];
      CountAboutAppend(a, init, uid);
    }
  }

  /** The lines one visit adds about `uid`: one when it announces `uid`, none otherwise. */
  lemma VisitCount(u: Update, last: int, suppress: bool, resolve: int -> Option<string>, uid: int)
    ensures CountAbout(Visit(u, last, suppress, resolve).lines, uid)
            == CountAbout(u.lines, uid) + (if last == uid && Announces(u.names, last, suppress, resolve) then 1 else 0)
  {
    var line := if Announces(u.names, last, suppress, resolve) then [AssociateLine(last, resolve(last))] else [];
    CountAboutAppend(u.lines, line, uid);
    AssociateLineRoundTrip(last, resolve(last));
    assert line != [] ==> line[..0] == [];
  }

  /**
   * In a pass over `uids`, in which an application uid occurs once per
   * component that reports it, a uid that resolves to a name gets exactly
   * one `associate` line when the pass announces it, however many times it
   * is visited; the later visits find the name just stored.
   */
  lemma {:induction false} FoldCountsAnnouncement(start: Names, uids: seq<int>, suppress: bool, resolve: int -> Option<string>, uid: int)
    requires resolve(uid).Some?
    ensures CountAbout(Fold(start, uids, suppress, resolve).lines, uid)
            == if uid in uids && Announces(start, uid, suppress, resolve) then 1 else 0
    decreases |uids|
  {
    if uids != [] {
      var init := uids[..|uids| - 1];
      var last := uids[|uids| - 1];
      assert uids == init + [last];
      var prev := Fold(start, init, suppress, resolve);
      FoldCountsAnnouncement(start, init, suppress, resolve, uid);
      FoldNames(start, init, suppress, resolve);
      VisitCount(prev, last, suppress, resolve, uid);
      if last == uid && uid !in init {
        assert Lookup(prev.names, uid) == Lookup(start, uid);
      }
    }
  }

  /**
   * A uid whose name resolves to `null` is written afresh on every visit of a
   * pass that is not held back: the `null` stored by one visit is seen as
   * "no name yet" by the next, so k reporting components give k lines.
   */
  lemma {:induction false} NullNameRepeats(start: Names, uids: seq<int>, resolve: int -> Option<string>, uid: int)
    requires uid >= AID_APP && resolve(uid).None?
    ensures CountAbout(Fold(start, uids, Suppressed(false, true), resolve).lines, uid) == multiset(uids)[uid]
    decreases |uids|
  {
    if uids != [] {
      var init := uids[..|uids| - 1];
      var last := uids[|uids| - 1];
      assert uids == init + [last];
      assert multiset(uids) == multiset(init) + multiset{last};
      NullNameRepeats(start, init, resolve, uid);
      VisitCount(Fold(start, init, false, resolve), last, false, resolve, uid);
    }
  }

  /** Two visits of such a uid in one pass write the same `associate+<uid>+null` line twice. */
  lemma NullNameTwice(start: Names, uid: int, resolve: int -> Option<string>)
    requires uid >= AID_APP && resolve(uid).None?
    ensures Fold(start, [uid, uid], Suppressed(false, true), resolve).lines
            == [AssociateLine(uid, None), AssociateLine(uid, None)]
  {
    assert [uid, uid][..1] == [uid];
    assert [uid][..0] == [];
    var u0 := Fold(start, [], false, resolve);
    var u1 := Visit(u0, uid, false, resolve);
    assert Lookup(u1.names, uid) == None;
    assert u1.lines == [AssociateLine(uid, None)];
  }

  /**
   * After a first sighting on the first logged iteration, a later pass that
   * resolves a different name writes exactly one `associate` line about the
   * application, whichever components report it and how often.
   */
  lemma RenameAnnouncedOnce(start: Names, uid: int, r1: int -> Option<string>, r2: int -> Option<string>, later: seq<int>)
    requires uid >= AID_APP && uid !in start
    requires r1(uid).Some? && r2(uid).Some? && r1(uid) != r2(uid)
    requires uid in later
    ensures var u1 := Fold(start, [uid], Suppressed(true, true), r1);
      CountAbout(Fold(u1.names, later, Suppressed(false, true), r2).lines, uid) == 1
  {
    FirstSightingThenRename(start, uid, r1, r2);
    var u1 := Fold(start, [uid], Suppressed(true, true), r1);
    FoldCountsAnnouncement(u1.names, later, Suppressed(false, true), r2, uid);
  }

  // ---------------------------------------------------------------------
  // Listing the registry
  // ---------------------------------------------------------------------

  /** Some element of a non-empty set. */
  lemma ElementOf(s: set<int>) returns (y: int)
    requires s != {}
    ensures y in s
  {
    if forall x :: x !in s {
      assert false;
    }
    y :| y in s;
  }

  lemma {:induction false} MinExists(s: set<int>)
    requires s != {}
    ensures exists m :: m in s && forall x :: x in s ==> m <= x
    decreases |s|
  {
    var y := ElementOf(s);
    if s != {y} {
      var rest := s - {y};
      MinExists(rest);
      var m :| m in rest && forall x :: x in rest ==> m <= x;
      var least := if y < m then y else m;
      forall x | x in s ensures least <= x {
        if x != y { assert x in rest; }
      }
      assert least in s;
    } else {
      assert forall x :: x in s ==> y <= x;
    }
  }

  function MinOf(s: set<int>): (m: int)
    requires s != {}
    ensures m in s && forall x :: x in s ==> m <= x
  {
    MinExists(s);
    var m :| m in s && forall x :: x in s ==> m <= x;
    m
  }

  /**
   * The keys of a set in ascending order.  Java's `HashMap.keySet()` order is
   * unspecified; the model fixes this one.
   */
  function SortedKeys(s: set<int>): seq<int>
    decreases s
  {
    if s == {} then []
    else
      var m := MinOf(s);
      [m] + SortedKeys(s - {m})
  }

  /** `SortedKeys` lists exactly the set's members, each once, ascending. */
  lemma {:induction false} SortedKeysSpec(s: set<int>)
    ensures forall x :: x in SortedKeys(s) <==> x in s
    ensures forall i, j :: 0 <= i < j < |SortedKeys(s)| ==> SortedKeys(s)[i] < SortedKeys(s)[j]
    decreases s
  {
    if s != {} {
      var m := MinOf(s);
      var rest := SortedKeys(s - {m});
      SortedKeysSpec(s - {m});
      assert SortedKeys(s) == [m] + rest;
      forall i, j | 0 <= i < j < |SortedKeys(s)| ensures SortedKeys(s)[i] < SortedKeys(s)[j] {
        if i > 0 {
          assert SortedKeys(s)[i] == rest[i - 1] && SortedKeys(s)[j] == rest[j - 1];
        } else {
          assert SortedKeys(s)[j] == rest[j - 1] && rest[j - 1] in rest;
        }
      }
    }
  }

  /** The application uids among `keys`, in their order: the keys the header loop does not skip. */
  function AppFilter(keys: seq<int>): seq<int>
    decreases |keys|
  {
    if keys == [] then []
    else AppFilter(keys[..|keys| - 1]) + (if keys[|keys| - 1] >= AID_APP then [keys[|keys| - 1]] else [])
  }

  lemma {:induction false} AppFilterMembers(keys: seq<int>)
    ensures forall x :: x in AppFilter(keys) <==> x in keys && x >= AID_APP
    decreases |keys|
  {
    if keys != [] {
      var init := keys[..|keys| - 1];
      AppFilterMembers(init);
      assert keys == init + [keys[|keys| - 1]];
    }
  }

  lemma {:induction false} AppFilterIncreasing(keys: seq<int>)
    requires forall i, j :: 0 <= i < j < |keys| ==> keys[i] < keys[j]
    ensures forall i, j :: 0 <= i < j < |AppFilter(keys)| ==> AppFilter(keys)[i] < AppFilter(keys)[j]
    decreases |keys|
  {
    if keys != [] {
      var n := |keys| - 1;
      var init := keys[..n];
      AppFilterIncreasing(init);
      AppFilterMembers(init);
      var prev := AppFilter(init);
      forall i | 0 <= i < |prev| ensures prev[i] < keys[n] {
        assert prev[i] in prev;
        assert prev[i] in init;
        var j :| 0 <= j < n && init[j] == prev[i];
        assert keys[j] == init[j];
      }
    }
  }

  /** The application uids held by the registry, ascending. */
  function AppUids(names: Names): (r: seq<int>)
    ensures forall x :: x in r <==> x in names && x >= AID_APP
    ensures forall i, j :: 0 <= i < j < |r| ==> r[i] < r[j]
  {
    var keys := SortedKeys(names.Keys);
    SortedKeysSpec(names.Keys);
    AppFilterMembers(keys);
    AppFilterIncreasing(keys);
    AppFilter(keys)
  }

  /** The `associate` lines the header loop writes while walking `keys`, skipping system uids. */
  function AssociationsOf(names: Names, keys: seq<int>): seq<string>
    decreases |keys|
  {
    if keys == [] then []
    else
      var uid := keys[|keys| - 1];
      AssociationsOf(names, keys[..|keys| - 1]) + (if uid >= AID_APP then [AssociateLine(uid, Lookup(names, uid))] else [])
  }

  /** One more key adds its `associate` line, if any, at the end. */
  lemma AssociationsSnoc(names: Names, keys: seq<int>, uid: int)
    ensures AssociationsOf(names, keys + [uid])
            == AssociationsOf(names, keys) + (if uid >= AID_APP then [AssociateLine(uid, Lookup(names, uid))] else [])
  {
    assert (keys + [uid])[..|keys|] == keys;
  }

  /** The `associate` lines of the first iteration's header, in the order the registry's keys are walked. */
  function HeaderAssociations(names: Names): seq<string> {
    AssociationsOf(names, SortedKeys(names.Keys))
  }

  /** Walking the keys writes one line per application uid among them, in order. */
  lemma {:induction false} AssociationsFollowFilter(names: Names, keys: seq<int>)
    ensures var apps := AppFilter(keys);
      var lines := AssociationsOf(names, keys);
      && |lines| == |apps|
      && forall k :: 0 <= k < |apps| ==> lines[k] == AssociateLine(apps[k], Lookup(names, apps[k]))
    decreases |keys|
  {
    if keys != [] {
      AssociationsFollowFilter(names, keys[..|keys| - 1]);
    }
  }

  /**
   * The header lists every application uid of the registry once, with the
   * name the registry holds, and lists no system uid.
   */
  lemma HeaderListsApplications(names: Names)
    ensures var lines := HeaderAssociations(names);
      && (forall k :: 0 <= k < |lines| ==>
            && AssociatedUid(lines[k]).Some?
            && AssociatedUid(lines[k]).value in names
            && AssociatedUid(lines[k]).value >= AID_APP
            && lines[k] == AssociateLine(AssociatedUid(lines[k]).value, names[AssociatedUid(lines[k]).value]))
      && (forall u :: u in names && u >= AID_APP ==>
            exists k :: 0 <= k < |lines| && lines[k] == AssociateLine(u, names[u]))
      && (forall i, j :: 0 <= i < j < |lines| ==> AssociatedUid(lines[i]) != AssociatedUid(lines[j]))
  {
    var apps := AppUids(names);
    var lines := HeaderAssociations(names);
    AssociationsFollowFilter(names, SortedKeys(names.Keys));
    forall k | 0 <= k < |lines|
      ensures AssociatedUid(lines[k]) == Some(apps[k])
    {
      AssociateLineRoundTrip(apps[k], names[apps[k]]);
    }
    forall u | u in names && u >= AID_APP
      ensures exists k :: 0 <= k < |lines| && lines[k] == AssociateLine(u, names[u])
    {
      assert u in apps;
      var k :| 0 <= k < |apps| && apps[k] == u;
      assert lines[k] == AssociateLine(u, names[u]);
    }
    forall i, j | 0 <= i < j < |lines| ensures AssociatedUid(lines[i]) != AssociatedUid(lines[j]) {
      assert apps[i] < apps[j];
    }
  }
}
