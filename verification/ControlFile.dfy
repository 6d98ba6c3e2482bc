/** The edit a pause or a resume makes to the workers file: one flag of one home, in the parsed tree of
    the file, leaving every other node as it was. */
module ControlFile {
  import opened Basics

  datatype Kind = Scalar | Sequence | Mapping | OtherKind

  /** A YAML node: a sequence has items, a mapping has keys and their values. */
  datatype Node = Node(kind: Kind, tag: string, value: string, items: seq<Node>, pairs: seq<Pair>)
  datatype Pair = Pair(key: Node, val: Node)

  datatype Problem = InvalidFile | InvalidHomes | InvalidHome | DuplicateId | NotThere

  const HOMES := "homes"
  const ID := "id"
  const ENABLED := "enabled"
  const BOOL_TAG := "!!bool"

  function Truth(enabled: bool): string {
    if enabled then "true" else "false"
  }

  function FlagPair(enabled: bool): Pair {
    Pair(Node(Scalar, "!!str", ENABLED, [], []), Node(Scalar, BOOL_TAG, Truth(enabled), [], []))
  }

  // -------------------------------------------------------------------------
  // One home
  // -------------------------------------------------------------------------

  /** The last of the first n pairs with a key, or -1. */
  function LastOf(pairs: seq<Pair>, key: string, n: nat): (at: int)
    requires n <= |pairs|
    ensures -1 <= at < n && (at >= 0 ==> pairs[at].key.value == key)
    ensures forall k :: at < k < n ==> pairs[k].key.value != key
  {
    if n == 0 then -1
    else if pairs[n - 1].key.value == key then n - 1
    else LastOf(pairs, key, n - 1)
  }

  function Get(home: Node, key: string): Option<Node> {
    var at := LastOf(home.pairs, key, |home.pairs|);
    if at < 0 then None else Some(home.pairs[at].val)
  }

  /** Some pair of the first n is this id. */
  predicate NamesId(pairs: seq<Pair>, id: string, n: nat)
    requires n <= |pairs|
  {
    exists k :: 0 <= k < n && pairs[k].key.value == ID && pairs[k].val.value == id
  }

  predicate IsHome(home: Node, id: string) {
    home.kind.Mapping? && NamesId(home.pairs, id, |home.pairs|)
  }

  function Flagged(home: Node, enabled: bool): Node {
    var at := LastOf(home.pairs, ENABLED, |home.pairs|);
    if at >= 0 then
      var p := home.pairs[at];
      home.(pairs := home.pairs[at := p.(val := p.val.(tag := BOOL_TAG, value := Truth(enabled)))])
    else home.(pairs := home.pairs + [FlagPair(enabled)])
  }

  lemma {:induction false} SameKeysSameLast(pairs: seq<Pair>, other: seq<Pair>, key: string, n: nat)
    requires n <= |pairs| && n <= |other| && forall k :: 0 <= k < n ==> other[k].key == pairs[k].key
    ensures LastOf(other, key, n) == LastOf(pairs, key, n)
  {
    if n > 0 { SameKeysSameLast(pairs, other, key, n - 1); }
  }

  /** A home is the one the command is for when it is a mapping with that id. */
  lemma IsHomeMeans(home: Node, id: string)
    ensures IsHome(home, id) <==>
              home.kind.Mapping? && exists p :: p in home.pairs && p.key.value == "id" && p.val.value == id
  {
    if IsHome(home, id) {
      var k :| 0 <= k < |home.pairs| && home.pairs[k].key.value == ID && home.pairs[k].val.value == id;
      assert home.pairs[k] in home.pairs;
    }
    if home.kind.Mapping? && exists p :: p in home.pairs && p.key.value == "id" && p.val.value == id {
      var p :| p in home.pairs && p.key.value == "id" && p.val.value == id;
      var k :| 0 <= k < |home.pairs| && home.pairs[k] == p;
      assert NamesId(home.pairs, id, |home.pairs|);
    }
  }

  /** The edited home reads the new flag, and every other key as before. */
  lemma FlaggedReads(home: Node, enabled: bool, key: string)
    ensures var flag := Get(Flagged(home, enabled), "enabled");
            flag.Some? && flag.value.tag == "!!bool" && flag.value.value == if enabled then "true" else "false"
    ensures key != "enabled" ==> Get(Flagged(home, enabled), key) == Get(home, key)
  {
    SameKeysSameLast(home.pairs, Flagged(home, enabled).pairs, ENABLED, |home.pairs|);
    SameKeysSameLast(home.pairs, Flagged(home, enabled).pairs, key, |home.pairs|);
  }

  /** The edit writes one value: the home's last flag, which keeps its kind and whatever else it has, or
      with none a new one at the end. */
  lemma FlaggedWritesOneValue(home: Node, enabled: bool)
    ensures var after := Flagged(home, enabled);
            && after == home.(pairs := after.pairs)
            && if Get(home, "enabled").None? then
                 after.pairs == home.pairs + [Pair(Node(Scalar, "!!str", "enabled", [], []),
                                                   Node(Scalar, "!!bool", if enabled then "true" else "false", [], []))]
               else
                 exists k :: 0 <= k < |home.pairs| && home.pairs[k].key.value == "enabled"
                   && (forall j :: k < j < |home.pairs| ==> home.pairs[j].key.value != "enabled")
                   && after.pairs == home.pairs[k := Pair(home.pairs[k].key,
                        home.pairs[k].val.(tag := "!!bool", value := if enabled then "true" else "false"))]
  {
    var at := LastOf(home.pairs, ENABLED, |home.pairs|);
    if at >= 0 { assert home.pairs[at].key.value == "enabled"; }
  }

  /** The last of two edits is the one that stands. */
  lemma LastFlagStands(home: Node, before: bool, enabled: bool)
    ensures Flagged(Flagged(home, before), enabled) == Flagged(home, enabled)
  {
    var once := Flagged(home, before);
    SameKeysSameLast(home.pairs, once.pairs, ENABLED, |home.pairs|);
    assert Flagged(once, enabled).pairs == Flagged(home, enabled).pairs;
  }

  // -------------------------------------------------------------------------
  // The homes of one list
  // -------------------------------------------------------------------------

  /** A walk over homes: what they have become and whether the one was found, or what is wrong. */
  datatype Walk<T> = Walk(nodes: seq<T>, found: bool) | Bad(problem: Problem)

  function WalkHomes(homes: seq<Node>, id: string, enabled: bool, found: bool, n: nat): (w: Walk<Node>)
    requires n <= |homes|
    ensures w.Walk? ==> |w.nodes| == |homes|
  {
    if n == 0 then Walk(homes, found)
    else
      var w, home := WalkHomes(homes, id, enabled, found, n - 1), homes[n - 1];
      if w.Bad? then w
      else if !home.kind.Mapping? then Bad(InvalidHome)
      else if !IsHome(home, id) then w
      else if w.found then Bad(DuplicateId)
      else Walk(w.nodes[n - 1 := Flagged(home, enabled)], true)
  }

  predicate NoneIs(homes: seq<Node>, id: string, n: nat)
    requires n <= |homes|
  {
    forall k :: 0 <= k < n ==> !IsHome(homes[k], id)
  }

  predicate OnlyIs(homes: seq<Node>, id: string, n: nat, k: nat)
    requires n <= |homes|
  {
    k < n && IsHome(homes[k], id) && forall j :: 0 <= j < n && j != k ==> !IsHome(homes[j], id)
  }

  predicate AllMappings(homes: seq<Node>, n: nat)
    requires n <= |homes|
  {
    forall k :: 0 <= k < n ==> homes[k].kind.Mapping?
  }

  /** A walk over a list that was not stopped changed the one home with the id, or nothing. */
  lemma {:induction false} WalkHomesMeans(homes: seq<Node>, id: string, enabled: bool, found: bool, n: nat) returns (k: nat)
    requires n <= |homes| && WalkHomes(homes, id, enabled, found, n).Walk?
    ensures var w := WalkHomes(homes, id, enabled, found, n);
            && AllMappings(homes, n)
            && (w.found == found ==> w.nodes == homes && NoneIs(homes, id, n))
            && (w.found != found ==> !found && OnlyIs(homes, id, n, k) && w.nodes == homes[k := Flagged(homes[k], enabled)])
  {
    k := 0;
    if n > 0 {
      k := WalkHomesMeans(homes, id, enabled, found, n - 1);
      if WalkHomes(homes, id, enabled, found, n - 1).found != WalkHomes(homes, id, enabled, found, n).found { k := n - 1; }
    }
  }

  /** It is stopped only by an entry that is no mapping or by a second home with the id. */
  lemma {:induction false} WalkHomesGoesOn(homes: seq<Node>, id: string, enabled: bool, found: bool, n: nat, k: nat)
    requires n <= |homes| && AllMappings(homes, n)
    requires NoneIs(homes, id, n) || (!found && OnlyIs(homes, id, n, k))
    ensures WalkHomes(homes, id, enabled, found, n).Walk?
  {
    if n > 0 {
      WalkHomesGoesOn(homes, id, enabled, found, n - 1, k);
      var j := WalkHomesMeans(homes, id, enabled, found, n - 1);
      assert IsHome(homes[n - 1], id) ==> NoneIs(homes, id, n - 1);
    }
  }

  // -------------------------------------------------------------------------
  // The whole file
  // -------------------------------------------------------------------------

  function WalkFile(pairs: seq<Pair>, id: string, enabled: bool, n: nat): (w: Walk<Pair>)
    requires n <= |pairs|
    ensures w.Walk? ==> |w.nodes| == |pairs|
  {
    if n == 0 then Walk(pairs, false)
    else
      var w, p := WalkFile(pairs, id, enabled, n - 1), pairs[n - 1];
      if w.Bad? || p.key.value != HOMES then w
      else if !p.val.kind.Sequence? then Bad(InvalidHomes)
      else
        var h := WalkHomes(p.val.items, id, enabled, w.found, |p.val.items|);
        if h.Bad? then Bad(h.problem) else Walk(w.nodes[n - 1 := p.(val := p.val.(items := h.nodes))], h.found)
  }

  /** saveHomeEnabled's edit: the new tree, or why there is none. */
  datatype Edit = Edited(root: Node) | Refused(problem: Problem)

  function Save(root: Node, id: string, enabled: bool): Edit {
    if !root.kind.Mapping? then Refused(InvalidFile)
    else
      var w := WalkFile(root.pairs, id, enabled, |root.pairs|);
      if w.Bad? then Refused(w.problem)
      else if !w.found then Refused(NotThere)
      else Edited(root.(pairs := w.nodes))
  }

  /** Of the first n pairs, pair i alone lists the home, and lists it once. */
  ghost predicate OnlySite(pairs: seq<Pair>, id: string, n: nat, i: nat, k: nat)
    requires n <= |pairs|
  {
    && i < n && pairs[i].key.value == "homes" && OnlyIs(pairs[i].val.items, id, |pairs[i].val.items|, k)
    && forall j :: 0 <= j < n && j != i ==> ListsNone(pairs[j], id)
  }

  predicate ListsNone(p: Pair, id: string) {
    p.key.value == "homes" ==> NoneIs(p.val.items, id, |p.val.items|)
  }

  predicate ListsHomes(p: Pair) {
    p.key.value == "homes" ==> p.val.kind.Sequence? && AllMappings(p.val.items, |p.val.items|)
  }

  ghost predicate NoSite(pairs: seq<Pair>, id: string, n: nat)
    requires n <= |pairs|
  {
    forall j :: 0 <= j < n ==> ListsNone(pairs[j], id)
  }

  /** Every list of homes is a sequence of mappings. */
  ghost predicate WellShaped(pairs: seq<Pair>, n: nat)
    requires n <= |pairs|
  {
    forall j :: 0 <= j < n ==> ListsHomes(pairs[j])
  }

  function EditedAt(pairs: seq<Pair>, i: nat, k: nat, enabled: bool): seq<Pair>
    requires i < |pairs| && k < |pairs[i].val.items|
  {
    var p := pairs[i];
    pairs[i := p.(val := p.val.(items := p.val.items[k := Flagged(p.val.items[k], enabled)]))]
  }

  ghost predicate WalkedTo(pairs: seq<Pair>, id: string, enabled: bool, n: nat, w: Walk<Pair>, i: nat, k: nat)
    requires w.Walk? && n <= |pairs|
  {
    && WellShaped(pairs, n)
    && (!w.found ==> w.nodes == pairs && NoSite(pairs, id, n))
    && (w.found ==> OnlySite(pairs, id, n, i, k) && w.nodes == EditedAt(pairs, i, k, enabled))
  }

  lemma WalkList(pairs: seq<Pair>, id: string, enabled: bool, n: nat, w: Walk<Pair>, i: nat, k: nat) returns (i': nat, k': nat)
    requires w.Walk? && n < |pairs| == |w.nodes| && WalkedTo(pairs, id, enabled, n, w, i, k)
    requires pairs[n].key.value == HOMES && pairs[n].val.kind.Sequence?
    requires WalkHomes(pairs[n].val.items, id, enabled, w.found, |pairs[n].val.items|).Walk?
    ensures var h := WalkHomes(pairs[n].val.items, id, enabled, w.found, |pairs[n].val.items|);
            WalkedTo(pairs, id, enabled, n + 1, Walk(w.nodes[n := pairs[n].(val := pairs[n].val.(items := h.nodes))], h.found), i', k')
  {
    var list := pairs[n].val;
    var h := WalkHomes(list.items, id, enabled, w.found, |list.items|);
    var at := WalkHomesMeans(list.items, id, enabled, w.found, |list.items|);
    if w.found {
      i', k' := i, k;
      assert h.nodes == list.items && w.nodes[n] == pairs[n];
      assert w.nodes[n := pairs[n]] == w.nodes;
    } else {
      i', k' := n, at;
      assert !h.found ==> w.nodes[n := pairs[n]] == w.nodes;
    }
  }

  lemma {:induction false} WalkFileMeans(pairs: seq<Pair>, id: string, enabled: bool, n: nat) returns (i: nat, k: nat)
    requires n <= |pairs| && WalkFile(pairs, id, enabled, n).Walk?
    ensures WalkedTo(pairs, id, enabled, n, WalkFile(pairs, id, enabled, n), i, k)
  {
    i, k := 0, 0;
    if n > 0 {
      i, k := WalkFileMeans(pairs, id, enabled, n - 1);
      if pairs[n - 1].key.value == HOMES {
        i, k := WalkList(pairs, id, enabled, n - 1, WalkFile(pairs, id, enabled, n - 1), i, k);
      }
    }
  }

  /** An edit that succeeds found one home with the id, changed that home's flag, and left every other
      node of the file as it was. */
  lemma SaveChangesOneFlag(root: Node, id: string, enabled: bool)
    requires Save(root, id, enabled).Edited?
    ensures exists i: nat, k: nat ::
              && OnlySite(root.pairs, id, |root.pairs|, i, k)
              && Save(root, id, enabled).root == root.(pairs := EditedAt(root.pairs, i, k, enabled))
  {
    var i, k := WalkFileMeans(root.pairs, id, enabled, |root.pairs|);
  }

  lemma {:induction false} WalkFileGoesOn(pairs: seq<Pair>, id: string, enabled: bool, n: nat, i: nat, k: nat)
    requires n <= |pairs| && WellShaped(pairs, n)
    requires NoSite(pairs, id, n) || OnlySite(pairs, id, n, i, k)
    ensures WalkFile(pairs, id, enabled, n).Walk?
  {
    if n > 0 {
      assert ListsHomes(pairs[n - 1]);
      assert ListsNone(pairs[n - 1], id) || NoSite(pairs, id, n - 1);
      WalkFileGoesOn(pairs, id, enabled, n - 1, i, k);
      var i', k' := WalkFileMeans(pairs, id, enabled, n - 1);
      if pairs[n - 1].key.value == HOMES {
        var w, items := WalkFile(pairs, id, enabled, n - 1), pairs[n - 1].val.items;
        assert w.found ==> NoneIs(items, id, |items|) by {
          if w.found { SiteElsewhere(pairs, id, n, i, k, i', k'); }
        }
        WalkHomesGoesOn(items, id, enabled, w.found, |items|, k);
      }
    }
  }

  /** A home listed before pair n - 1 is not listed there. */
  lemma SiteElsewhere(pairs: seq<Pair>, id: string, n: nat, i: nat, k: nat, i': nat, k': nat)
    requires 0 < n <= |pairs| && OnlySite(pairs, id, n - 1, i', k')
    requires NoSite(pairs, id, n) || OnlySite(pairs, id, n, i, k)
    ensures ListsNone(pairs[n - 1], id)
  {
    assert !ListsNone(pairs[i'], id);
  }

  lemma SiteIsListed(pairs: seq<Pair>, id: string, n: nat, i: nat, k: nat)
    requires n <= |pairs| && OnlySite(pairs, id, n, i, k)
    ensures !NoSite(pairs, id, n)
  {
    assert !ListsNone(pairs[i], id);
  }

  /** A walk is stopped by a list that is not a sequence of mappings, or by a home listed twice. */
  lemma {:induction false} StoppedHomes(homes: seq<Node>, id: string, enabled: bool, found: bool, n: nat)
    requires n <= |homes| && AllMappings(homes, n) && WalkHomes(homes, id, enabled, found, n).Bad?
    ensures WalkHomes(homes, id, enabled, found, n).problem.DuplicateId?
  {
    if n > 0 && WalkHomes(homes, id, enabled, found, n - 1).Bad? { StoppedHomes(homes, id, enabled, found, n - 1); }
  }

  lemma {:induction false} StoppedFile(pairs: seq<Pair>, id: string, enabled: bool, n: nat)
    requires n <= |pairs| && WalkFile(pairs, id, enabled, n).Bad?
    ensures WalkFile(pairs, id, enabled, n).problem in {InvalidHomes, InvalidHome, DuplicateId}
    ensures WellShaped(pairs, n) ==> WalkFile(pairs, id, enabled, n).problem.DuplicateId?
  {
    var w, p := WalkFile(pairs, id, enabled, n - 1), pairs[n - 1];
    if w.Bad? {
      StoppedFile(pairs, id, enabled, n - 1);
    } else {
      StoppedProblems(p.val.items, id, enabled, w.found, |p.val.items|);
      if WellShaped(pairs, n) {
        assert ListsHomes(p);
        StoppedHomes(p.val.items, id, enabled, w.found, |p.val.items|);
      }
    }
  }

  lemma {:induction false} StoppedProblems(homes: seq<Node>, id: string, enabled: bool, found: bool, n: nat)
    requires n <= |homes|
    ensures var w := WalkHomes(homes, id, enabled, found, n); w.Bad? ==> w.problem in {InvalidHome, DuplicateId}
  {
    if n > 0 { StoppedProblems(homes, id, enabled, found, n - 1); }
  }

  /** The edit is made exactly when the file is a mapping, every list of homes in it is a sequence of
      mappings, and exactly one home has the id. A well-shaped file is otherwise refused for having none, or
      more than one. */
  lemma SavesExactlyWhen(root: Node, id: string, enabled: bool)
    ensures Save(root, id, enabled).Edited? <==>
              && root.kind.Mapping? && WellShaped(root.pairs, |root.pairs|)
              && exists i: nat, k: nat :: OnlySite(root.pairs, id, |root.pairs|, i, k)
    ensures Save(root, id, enabled) == Refused(InvalidFile) <==> !root.kind.Mapping?
    ensures root.kind.Mapping? && WellShaped(root.pairs, |root.pairs|) && Save(root, id, enabled).Refused? ==>
              Save(root, id, enabled).problem == if NoSite(root.pairs, id, |root.pairs|) then NotThere else DuplicateId
  {
    if root.kind.Mapping? {
      var w := WalkFile(root.pairs, id, enabled, |root.pairs|);
      if w.Walk? {
        var i, k := WalkFileMeans(root.pairs, id, enabled, |root.pairs|);
        if w.found { SiteIsListed(root.pairs, id, |root.pairs|, i, k); }
      } else {
        StoppedFile(root.pairs, id, enabled, |root.pairs|);
        if NoSite(root.pairs, id, |root.pairs|) && WellShaped(root.pairs, |root.pairs|) {
          WalkFileGoesOn(root.pairs, id, enabled, |root.pairs|, 0, 0);
        }
      }
      if WellShaped(root.pairs, |root.pairs|) && exists i: nat, k: nat :: OnlySite(root.pairs, id, |root.pairs|, i, k) {
        var i: nat, k: nat :| OnlySite(root.pairs, id, |root.pairs|, i, k);
        WalkFileGoesOn(root.pairs, id, enabled, |root.pairs|, i, k);
        SiteIsListed(root.pairs, id, |root.pairs|, i, k);
      }
    }
  }

  // -------------------------------------------------------------------------
  // The loops
  // -------------------------------------------------------------------------

  /** The innermost loop: does the home have the id, and where is its flag. */
  method Scan(home: Node, id: string) returns (named: bool, at: int)
    ensures named == NamesId(home.pairs, id, |home.pairs|)
    ensures at == LastOf(home.pairs, ENABLED, |home.pairs|)
  {
    named, at := false, -1;
    var j := 0;
    while j < |home.pairs|
      invariant 0 <= j <= |home.pairs|
      invariant named == NamesId(home.pairs, id, j) && at == LastOf(home.pairs, ENABLED, j)
    {
      if home.pairs[j].key.value == ID && home.pairs[j].val.value == id {
        named := true;
      }
      if home.pairs[j].key.value == ENABLED {
        at := j;
      }
      j := j + 1;
    }
  }

  /** The loop over one list. */
  method EditHomes(list: seq<Node>, id: string, enabled: bool, before: bool) returns (w: Walk<Node>)
    ensures w == WalkHomes(list, id, enabled, before, |list|)
  {
    var homes, found, n := list, before, 0;
    while n < |list|
      invariant 0 <= n <= |list| == |homes| && Walk(homes, found) == WalkHomes(list, id, enabled, before, n)
      invariant forall k :: n <= k < |list| ==> homes[k] == list[k]
    {
      var home := homes[n];
      if !home.kind.Mapping? {
        StaysBad(list, id, enabled, before, n + 1);
        return Bad(InvalidHome);
      }
      var named, at := Scan(home, id);
      if named {
        if found {
          StaysBad(list, id, enabled, before, n + 1);
          return Bad(DuplicateId);
        }
        found := true;
        if at >= 0 {
          var p := home.pairs[at];
          home := home.(pairs := home.pairs[at := p.(val := p.val.(tag := BOOL_TAG, value := Truth(enabled)))]);
        } else {
          home := home.(pairs := home.pairs + [FlagPair(enabled)]);
        }
        homes := homes[n := home];
      }
      n := n + 1;
    }
    return Walk(homes, found);
  }

  lemma {:induction false} StaysBad(list: seq<Node>, id: string, enabled: bool, before: bool, n: nat)
    requires n <= |list| && WalkHomes(list, id, enabled, before, n).Bad?
    ensures WalkHomes(list, id, enabled, before, |list|) == WalkHomes(list, id, enabled, before, n)
    decreases |list| - n
  {
    if n < |list| { StaysBad(list, id, enabled, before, n + 1); }
  }

  lemma {:induction false} FileStaysBad(pairs: seq<Pair>, id: string, enabled: bool, n: nat)
    requires n <= |pairs| && WalkFile(pairs, id, enabled, n).Bad?
    ensures WalkFile(pairs, id, enabled, |pairs|) == WalkFile(pairs, id, enabled, n)
    decreases |pairs| - n
  {
    if n < |pairs| { FileStaysBad(pairs, id, enabled, n + 1); }
  }

  /** saveHomeEnabled, between reading the file and writing it. */
  method SaveHomeEnabled(root: Node, id: string, enabled: bool) returns (edit: Edit)
    ensures edit == Save(root, id, enabled)
  {
    if !root.kind.Mapping? {
      return Refused(InvalidFile);
    }
    var pairs, found, n := root.pairs, false, 0;
    while n < |root.pairs|
      invariant 0 <= n <= |root.pairs| == |pairs|
      invariant Walk(pairs, found) == WalkFile(root.pairs, id, enabled, n)
      invariant forall k :: n <= k < |pairs| ==> pairs[k] == root.pairs[k]
    {
      var p := pairs[n];
      if p.key.value == HOMES {
        var w := Bad(InvalidHomes);
        if p.val.kind.Sequence? {
          w := EditHomes(p.val.items, id, enabled, found);
        }
        if w.Bad? {
          FileStaysBad(root.pairs, id, enabled, n + 1);
          return Refused(w.problem);
        }
        pairs, found := pairs[n := p.(val := p.val.(items := w.nodes))], w.found;
      }
      n := n + 1;
    }
    if !found {
      return Refused(NotThere);
    }
    return Edited(root.(pairs := pairs));
  }
}
