/** The order of commands in the generated reference: a depth-first emission into a shared
    list, then a reversal in place. Source: docs/main.go. */
module CommandDocs {
  import opened Wrappers

  const OTHERS := "other-commands"

  datatype Command = Command(name: string, group: string, available: bool, helpTopic: bool, children: seq<Command>)

  datatype CmdDoc = CmdDoc(id: string, title: string, tags: seq<string>, subcommands: seq<string>)

  predicate Visible(c: Command) {
    c.available && !c.helpTopic
  }

  function Dashed(s: string): (r: string)
    ensures |r| == |s|
  {
    seq(|s|, i requires 0 <= i < |s| => if s[i] == ' ' then '-' else s[i])
  }

  /** The command path of a child. */
  function SubTitle(parent: string, c: Command): string {
    parent + " " + c.name
  }

  function VisibleIds(title: string, kids: seq<Command>): seq<string> {
    if kids == [] then []
    else
      var before, last := VisibleIds(title, kids[..|kids| - 1]), kids[|kids| - 1];
      if Visible(last) then before + [Dashed(SubTitle(title, last))] else before
  }

  /** The entry of a command; a top-level command without a group gets the catch-all tag. */
  function Doc(c: Command, title: string, topLevel: bool): CmdDoc {
    CmdDoc(Dashed(title), title,
           if c.group != [] then [c.group] else if topLevel then [OTHERS] else [],
           VisibleIds(title, c.children))
  }

  // ---------------------------------------------------------------------------
  // Emission

  /** What is emitted below a command with the given path: children first. */
  function Emit(kids: seq<Command>, title: string, root: bool): seq<CmdDoc> {
    if kids == [] then []
    else
      var before, last := Emit(kids[..|kids| - 1], title, root), kids[|kids| - 1];
      if !Visible(last) then before
      else before + Emit(last.children, SubTitle(title, last), false) + [Doc(last, SubTitle(title, last), root)]
  }

  class SpecDoc {
    var commands: seq<CmdDoc>

    constructor ()
      ensures commands == []
    {
      commands := [];
    }

    /** `GenYamlDoc`; `root` tells that the command has no parent. */
    method GenYamlDoc(c: Command, title: string, root: bool) returns (doc: CmdDoc)
      modifies this
      ensures commands == old(commands) + Emit(c.children, title, root)
      ensures doc == Doc(c, title, false)
      decreases c
    {
      var subcommands: seq<string> := [];
      var kids := c.children;
      assert commands + [] == commands;
      for i := 0 to |kids|
        invariant commands == old(commands) + Emit(kids[..i], title, root)
        invariant subcommands == VisibleIds(title, kids[..i])
      {
        var child := kids[i];
        assert kids[..i + 1][..i] == kids[..i];
        if !child.available || child.helpTopic {
          continue;
        }
        var sub := GenYamlDoc(child, SubTitle(title, child), false);
        if root && |sub.tags| == 0 {
          sub := sub.(tags := sub.tags + [OTHERS]);
        }
        assert sub == Doc(child, SubTitle(title, child), root);
        commands := commands + [sub];
        subcommands := subcommands + [sub.id];
        assert commands == old(commands) + Emit(kids[..i + 1], title, root);
      }
      assert kids[..|kids|] == kids;
      doc := CmdDoc(Dashed(title), title, [], subcommands);
      if |c.group| > 0 {
        doc := doc.(tags := doc.tags + [c.group]);
      }
    }

    /** The two-index loop that swaps entries in place. */
    method ReverseCommands()
      modifies this
      ensures commands == Reverse(old(commands))
    {
      ghost var all := commands;
      var i, j := 0, |commands| - 1;
      while i < j
        invariant |commands| == |all| && i + j == |all| - 1 && 0 <= i <= j + 1
        invariant forall k :: i <= k <= j ==> commands[k] == all[k]
        invariant forall k :: 0 <= k < |all| && !(i <= k <= j) ==> commands[k] == all[|all| - 1 - k]
      {
        ghost var before := commands;
        commands := commands[i := commands[j]][j := commands[i]];
        assert before[i] == all[i] && before[j] == all[j];
        assert forall k :: 0 <= k < |all| && k != i && k != j ==> commands[k] == before[k];
        i, j := i + 1, j - 1;
      }
      ReverseAt(all);
      assert commands == Reverse(all);
    }

    /** The command list of `generate`. */
    method Generate(c: Command)
      modifies this
      requires commands == []
      ensures commands == Mirror(c.children, c.name, true)
    {
      var doc := GenYamlDoc(c, c.name, true);
      assert [] + Emit(c.children, c.name, true) == Emit(c.children, c.name, true);
      ReverseCommands();
      ReversedEmitIsMirror(c.children, c.name, true);
    }
  }

  function Reverse<T>(s: seq<T>): seq<T> {
    if s == [] then [] else Reverse(s[1..]) + [s[0]]
  }

  lemma {:induction false} ReverseAt<T>(s: seq<T>)
    ensures |Reverse(s)| == |s|
    ensures forall k :: 0 <= k < |s| ==> Reverse(s)[k] == s[|s| - 1 - k]
  {
    if s != [] {
      ReverseAt(s[1..]);
    }
  }

  lemma {:induction false} ReverseConcat<T>(a: seq<T>, b: seq<T>)
    ensures Reverse(a + b) == Reverse(b) + Reverse(a)
  {
    if a == [] {
      assert a + b == b && Reverse(b) + [] == Reverse(b);
    } else {
      assert (a + b)[1..] == a[1..] + b;
      ReverseConcat(a[1..], b);
    }
  }

  // ---------------------------------------------------------------------------
  // The mirrored pre-order

  /** Each command before its descendants, later siblings first. */
  function Mirror(kids: seq<Command>, title: string, root: bool): seq<CmdDoc> {
    if kids == [] then []
    else
      var others, last := Mirror(kids[..|kids| - 1], title, root), kids[|kids| - 1];
      if !Visible(last) then others
      else [Doc(last, SubTitle(title, last), root)] + Mirror(last.children, SubTitle(title, last), false) + others
  }

  /** Reversing the emission gives the mirrored pre-order. */
  lemma {:induction false} ReversedEmitIsMirror(kids: seq<Command>, title: string, root: bool)
    ensures Reverse(Emit(kids, title, root)) == Mirror(kids, title, root)
  {
    if kids != [] {
      var init, last := kids[..|kids| - 1], kids[|kids| - 1];
      ReversedEmitIsMirror(init, title, root);
      if Visible(last) {
        var inner, doc := Emit(last.children, SubTitle(title, last), false), Doc(last, SubTitle(title, last), root);
        ReversedEmitIsMirror(last.children, SubTitle(title, last), false);
        ReverseConcat(Emit(init, title, root) + inner, [doc]);
        ReverseConcat(Emit(init, title, root), inner);
        assert Reverse([doc]) == [doc] by { assert [doc][1..] == []; }
      }
    }
  }

  // ---------------------------------------------------------------------------
  // Every visible command exactly once, before its subcommands

  /** Where a command sits: child indices from the root. */
  type Place = seq<nat>

  /** The entry of the command at a place; None below an unavailable command. */
  function DocAt(kids: seq<Command>, title: string, root: bool, place: Place): Option<CmdDoc> {
    if place == [] || place[0] >= |kids| || !Visible(kids[place[0]]) then None
    else
      var c := kids[place[0]];
      if |place| == 1 then Some(Doc(c, SubTitle(title, c), root))
      else DocAt(c.children, SubTitle(title, c), false, place[1..])
  }

  function Under(i: nat, places: seq<Place>): (r: seq<Place>)
    ensures |r| == |places|
  {
    seq(|places|, k requires 0 <= k < |places| => [i] + places[k])
  }

  function Places(kids: seq<Command>): seq<Place> {
    if kids == [] then []
    else
      var others, last := Places(kids[..|kids| - 1]), kids[|kids| - 1];
      if !Visible(last) then others
      else [[|kids| - 1]] + Under(|kids| - 1, Places(last.children)) + others
  }

  /** The mirrored pre-order on places: an ancestor before its descendants, a later sibling's
      whole subtree before an earlier one's. */
  predicate Precedes(a: Place, b: Place) {
    b != [] && (a == [] || a[0] > b[0] || (a[0] == b[0] && Precedes(a[1..], b[1..])))
  }

  lemma {:induction false} PrecedesIsStrict(a: Place, b: Place)
    ensures !(Precedes(a, b) && Precedes(b, a))
    decreases |a|
  {
    if a != [] && b != [] {
      PrecedesIsStrict(a[1..], b[1..]);
    }
  }

  lemma {:induction false} AncestorPrecedes(a: Place, below: Place)
    requires below != []
    ensures Precedes(a, a + below)
  {
    if a != [] {
      assert (a + below)[1..] == a[1..] + below;
      AncestorPrecedes(a[1..], below);
    }
  }

  predicate Ordered(places: seq<Place>) {
    forall i, j :: 0 <= i < j < |places| ==> Precedes(places[i], places[j])
  }

  /** Entry by entry, a list of places leads to a list of entries. */
  predicate Follows(kids: seq<Command>, title: string, root: bool, places: seq<Place>, docs: seq<CmdDoc>) {
    |places| == |docs| && forall k :: 0 <= k < |places| ==> DocAt(kids, title, root, places[k]) == Some(docs[k])
  }

  lemma FollowsEarlier(kids: seq<Command>, title: string, root: bool, places: seq<Place>, docs: seq<CmdDoc>)
    requires kids != [] && Follows(kids[..|kids| - 1], title, root, places, docs)
    ensures Follows(kids, title, root, places, docs)
  {
    forall k | 0 <= k < |places| ensures DocAt(kids, title, root, places[k]) == Some(docs[k]) {
      DocAtPrefix(kids, title, root, places[k]);
    }
  }

  lemma FollowsBelow(kids: seq<Command>, title: string, root: bool, places: seq<Place>, docs: seq<CmdDoc>)
    requires kids != [] && Visible(kids[|kids| - 1])
    requires var last := kids[|kids| - 1]; Follows(last.children, SubTitle(title, last), false, places, docs)
    ensures Follows(kids, title, root, Under(|kids| - 1, places), docs)
  {
    forall k | 0 <= k < |places| ensures DocAt(kids, title, root, Under(|kids| - 1, places)[k]) == Some(docs[k]) {
      assert Under(|kids| - 1, places)[k][1..] == places[k];
    }
  }

  lemma FollowsConcat(kids: seq<Command>, title: string, root: bool,
                      places1: seq<Place>, docs1: seq<CmdDoc>, places2: seq<Place>, docs2: seq<CmdDoc>)
    requires Follows(kids, title, root, places1, docs1) && Follows(kids, title, root, places2, docs2)
    ensures Follows(kids, title, root, places1 + places2, docs1 + docs2)
  {
  }

  /** The entries of the list are those at the listed places. */
  lemma {:induction false} MirrorFollowsPlaces(kids: seq<Command>, title: string, root: bool)
    ensures Follows(kids, title, root, Places(kids), Mirror(kids, title, root))
  {
    if kids != [] {
      var init, last, n := kids[..|kids| - 1], kids[|kids| - 1], |kids| - 1;
      MirrorFollowsPlaces(init, title, root);
      FollowsEarlier(kids, title, root, Places(init), Mirror(init, title, root));
      if Visible(last) {
        var sub := SubTitle(title, last);
        var below := Under(n, Places(last.children));
        MirrorFollowsPlaces(last.children, sub, false);
        FollowsBelow(kids, title, root, Places(last.children), Mirror(last.children, sub, false));
        FollowsConcat(kids, title, root, [[n]], [Doc(last, sub, root)], below, Mirror(last.children, sub, false));
        FollowsConcat(kids, title, root, [[n]] + below, [Doc(last, sub, root)] + Mirror(last.children, sub, false),
                      Places(init), Mirror(init, title, root));
      }
    }
  }

  lemma DocAtPrefix(kids: seq<Command>, title: string, root: bool, place: Place)
    requires kids != [] && (place == [] || place[0] < |kids| - 1 || DocAt(kids[..|kids| - 1], title, root, place).Some?)
    ensures DocAt(kids, title, root, place) == DocAt(kids[..|kids| - 1], title, root, place)
  {
  }

  /** The listed places are in strict mirrored pre-order, so none is listed twice. */
  lemma {:induction false} PlacesAreOrdered(kids: seq<Command>)
    ensures Ordered(Places(kids))
    ensures forall k :: 0 <= k < |Places(kids)| ==> Places(kids)[k] != [] && Places(kids)[k][0] < |kids|
  {
    if kids != [] {
      var init, last, n := kids[..|kids| - 1], kids[|kids| - 1], |kids| - 1;
      PlacesAreOrdered(init);
      if Visible(last) {
        PlacesAreOrdered(last.children);
        UnderIsOrdered(n, Places(last.children));
      }
    }
  }

  lemma UnderIsOrdered(n: nat, places: seq<Place>)
    requires Ordered(places) && forall k :: 0 <= k < |places| ==> places[k] != []
    ensures Ordered([[n]] + Under(n, places))
  {
    var r := [[n]] + Under(n, places);
    forall i, j | 0 <= i < j < |r| ensures Precedes(r[i], r[j]) {
      assert r[j][1..] == places[j - 1];
      assert i > 0 ==> r[i][1..] == places[i - 1];
      assert i == 0 ==> r[i][1..] == [];
    }
  }

  /** Exactly the places of visible commands with visible ancestors are listed. */
  lemma {:induction false} PlacesAreExact(kids: seq<Command>, title: string, root: bool, place: Place)
    ensures place in Places(kids) <==> DocAt(kids, title, root, place).Some?
    decreases kids
  {
    if kids != [] {
      var init, last, n := kids[..|kids| - 1], kids[|kids| - 1], |kids| - 1;
      PlacesAreExact(init, title, root, place);
      PlacesAreOrdered(init);
      if place != [] && place[0] < n {
        DocAtPrefix(kids, title, root, place);
      }
      if Visible(last) && place != [] && place[0] == n {
        PlacesAreExact(last.children, SubTitle(title, last), false, place[1..]);
        UnderContains(n, Places(last.children), place);
        PlacesAreOrdered(last.children);
        assert |place| == 1 <==> place == [n];
      }
    }
  }

  lemma UnderContains(n: nat, places: seq<Place>, place: Place)
    requires place != [] && place[0] == n
    ensures place in Under(n, places) <==> place[1..] in places
  {
    var r := Under(n, places);
    if place in r {
      var k :| 0 <= k < |r| && r[k] == place;
      assert place[1..] == places[k];
    }
    if place[1..] in places {
      var k :| 0 <= k < |places| && places[k] == place[1..];
      assert r[k] == place;
    }
  }

  // ---------------------------------------------------------------------------
  // What an entry says of its command

  /** The command at a place of the tree, available or not. */
  function CommandAt(kids: seq<Command>, place: Place): Option<Command> {
    if place == [] || place[0] >= |kids| then None
    else if |place| == 1 then Some(kids[place[0]])
    else CommandAt(kids[place[0]].children, place[1..])
  }

  /** The command and all commands on the way to it are available and no help topics. */
  predicate Shown(kids: seq<Command>, place: Place) {
    && place != [] && place[0] < |kids| && kids[place[0]].available && !kids[place[0]].helpTopic
    && (|place| > 1 ==> Shown(kids[place[0]].children, place[1..]))
  }

  /** The names on the way, a blank before each. */
  function NamesTo(kids: seq<Command>, place: Place): string {
    if place == [] || place[0] >= |kids| then []
    else " " + kids[place[0]].name + NamesTo(kids[place[0]].children, place[1..])
  }

  /** An entry is listed for exactly the shown places. Its title is the command's path, its id the
      title with dashes for blanks, its tag the command's group or, for a top-level command
      without one, the catch-all. */
  lemma {:induction false} EntriesDescribe(kids: seq<Command>, title: string, root: bool, place: Place)
    ensures DocAt(kids, title, root, place).Some? <==> Shown(kids, place)
    ensures Shown(kids, place) ==>
      var d, c := DocAt(kids, title, root, place).value, CommandAt(kids, place);
      && c.Some? && d.title == title + NamesTo(kids, place) && |d.id| == |d.title|
      && (forall k :: 0 <= k < |d.id| ==> d.id[k] == if d.title[k] == ' ' then '-' else d.title[k])
      && d.tags == (if c.value.group != [] then [c.value.group]
                    else if root && |place| == 1 then ["other-commands"] else [])
    decreases |place|
  {
    if place != [] && place[0] < |kids| && Visible(kids[place[0]]) {
      var c := kids[place[0]];
      if |place| == 1 {
        assert NamesTo(c.children, place[1..]) == [];
        assert title + (" " + c.name) == SubTitle(title, c);
      } else {
        EntriesDescribe(c.children, SubTitle(title, c), false, place[1..]);
        var rest := NamesTo(c.children, place[1..]);
        assert title + (" " + c.name + rest) == SubTitle(title, c) + rest;
      }
    }
  }

  /** The indices of the visible commands, in ascending order. */
  ghost predicate Lists(title: string, kids: seq<Command>, ids: seq<string>, idx: seq<nat>) {
    && |idx| == |ids|
    && (forall k :: 0 <= k < |idx| ==>
         idx[k] < |kids| && Visible(kids[idx[k]]) && ids[k] == Dashed(SubTitle(title, kids[idx[k]])))
    && (forall j, k :: 0 <= j < k < |idx| ==> idx[j] < idx[k])
    && (forall i :: 0 <= i < |kids| && Visible(kids[i]) ==> i in idx)
  }

  lemma {:induction false} VisibleIdsInOrder(title: string, kids: seq<Command>) returns (idx: seq<nat>)
    ensures Lists(title, kids, VisibleIds(title, kids), idx)
  {
    if kids == [] {
      idx := [];
    } else {
      var n := |kids| - 1;
      var before := VisibleIdsInOrder(title, kids[..n]);
      if Visible(kids[n]) {
        ListsOneMore(title, kids, VisibleIds(title, kids[..n]), before);
        idx := before + [n];
      } else {
        ListsNoMore(title, kids, VisibleIds(title, kids[..n]), before);
        idx := before;
      }
    }
  }

  lemma ListsNoMore(title: string, kids: seq<Command>, ids: seq<string>, idx: seq<nat>)
    requires kids != [] && !Visible(kids[|kids| - 1]) && Lists(title, kids[..|kids| - 1], ids, idx)
    ensures Lists(title, kids, ids, idx)
  {
    forall i | 0 <= i < |kids| && Visible(kids[i]) ensures i in idx {
      assert kids[..|kids| - 1][i] == kids[i];
    }
  }

  lemma ListsOneMore(title: string, kids: seq<Command>, ids: seq<string>, idx: seq<nat>)
    requires kids != [] && Visible(kids[|kids| - 1]) && Lists(title, kids[..|kids| - 1], ids, idx)
    ensures Lists(title, kids, ids + [Dashed(SubTitle(title, kids[|kids| - 1]))], idx + [|kids| - 1])
  {
    var n := |kids| - 1;
    assert (idx + [n])[|idx|] == n;
    forall i | 0 <= i < |kids| && Visible(kids[i]) ensures i in idx + [n] {
      if i < n { assert kids[..n][i] == kids[i] && i in idx; }
    }
  }

  /** An entry lists its subcommands once each, in the order of their declaration, and all of
      those that have entries. */
  lemma {:induction false} SubcommandsInOrder(kids: seq<Command>, title: string, root: bool, place: Place)
    returns (idx: seq<nat>)
    requires DocAt(kids, title, root, place).Some?
    ensures var subs := DocAt(kids, title, root, place).value.subcommands;
      && |idx| == |subs|
      && (forall k :: 0 <= k < |idx| ==>
           DocAt(kids, title, root, place + [idx[k]]).Some?
           && DocAt(kids, title, root, place + [idx[k]]).value.id == subs[k])
      && (forall j, k :: 0 <= j < k < |idx| ==> idx[j] < idx[k])
      && (forall i: nat :: DocAt(kids, title, root, place + [i]).Some? ==> i in idx)
    decreases |place|
  {
    var c := kids[place[0]];
    if |place| == 1 {
      idx := VisibleIdsInOrder(SubTitle(title, c), c.children);
      forall i: nat ensures DocAt(kids, title, root, place + [i]) == DocAt(c.children, SubTitle(title, c), false, [i]) {
        assert (place + [i])[1..] == [i];
      }
    } else {
      idx := SubcommandsInOrder(c.children, SubTitle(title, c), false, place[1..]);
      forall i: nat
        ensures DocAt(kids, title, root, place + [i]) == DocAt(c.children, SubTitle(title, c), false, place[1..] + [i])
      {
        assert (place + [i])[1..] == place[1..] + [i];
      }
    }
  }

  /** An entry's subcommands are the ids of the entries one step below it. */
  lemma {:induction false} SubcommandsAreChildren(kids: seq<Command>, title: string, root: bool, place: Place,
                                                  id: string)
    requires DocAt(kids, title, root, place).Some?
    ensures id in DocAt(kids, title, root, place).value.subcommands <==>
      exists i: nat :: DocAt(kids, title, root, place + [i]).Some?
        && DocAt(kids, title, root, place + [i]).value.id == id
    decreases |place|
  {
    var c := kids[place[0]];
    if |place| == 1 {
      VisibleIdsExact(SubTitle(title, c), c.children, id);
      forall i: nat ensures DocAt(kids, title, root, place + [i]) == DocAt(c.children, SubTitle(title, c), false, [i]) {
        assert (place + [i])[1..] == [i];
      }
    } else {
      SubcommandsAreChildren(c.children, SubTitle(title, c), false, place[1..], id);
      forall i: nat
        ensures DocAt(kids, title, root, place + [i]) == DocAt(c.children, SubTitle(title, c), false, place[1..] + [i])
      {
        assert (place + [i])[1..] == place[1..] + [i];
      }
    }
  }

  lemma {:induction false} VisibleIdsExact(title: string, kids: seq<Command>, id: string)
    ensures id in VisibleIds(title, kids) <==>
      exists i: nat :: DocAt(kids, title, false, [i]).Some? && DocAt(kids, title, false, [i]).value.id == id
  {
    if kids != [] {
      var init, n := kids[..|kids| - 1], |kids| - 1;
      VisibleIdsExact(title, init, id);
      forall i: nat | i < n ensures DocAt(kids, title, false, [i]) == DocAt(init, title, false, [i]) {
        DocAtPrefix(kids, title, false, [i]);
      }
      if Visible(kids[n]) && Dashed(SubTitle(title, kids[n])) == id {
        assert DocAt(kids, title, false, [n]).value.id == id;
      }
    }
  }

  /** The generated list: one entry for each visible command that is not under an unavailable
      one, none for anything else, every command before all its descendants and so before the
      subcommands it lists. */
  lemma DocumentationOrder(c: Command)
    ensures var kids, list, places := c.children, Mirror(c.children, c.name, true), Places(c.children);
      && |list| == |places|
      && (forall k :: 0 <= k < |list| ==> DocAt(kids, c.name, true, places[k]) == Some(list[k]))
      && (forall place :: place in places <==> DocAt(kids, c.name, true, place).Some?)
      && (forall i, j :: 0 <= i < j < |places| ==> places[i] != places[j])
      && (forall i, j :: 0 <= i < |places| && 0 <= j < |places| && IsBelow(places[j], places[i]) ==> i < j)
  {
    var places := Places(c.children);
    MirrorFollowsPlaces(c.children, c.name, true);
    PlacesAreOrdered(c.children);
    forall place ensures place in places <==> DocAt(c.children, c.name, true, place).Some? {
      PlacesAreExact(c.children, c.name, true, place);
    }
    forall i, j | 0 <= i < j < |places| ensures places[i] != places[j] {
      PrecedesIsStrict(places[i], places[j]);
    }
    forall i, j | 0 <= i < |places| && 0 <= j < |places| && IsBelow(places[j], places[i]) ensures i < j {
      AncestorPrecedes(places[i], places[j][|places[i]|..]);
      assert places[j] == places[i] + places[j][|places[i]|..];
      PrecedesIsStrict(places[i], places[j]);
    }
  }

  /** `a` is a descendant of `b`. */
  predicate IsBelow(a: Place, b: Place) {
    b < a
  }
}
