/** Items, the references they hold, and repointing those references at renumbered ids. */
module Items {
  import opened Text
  import opened Wikilinks

  datatype Link = Link(kind: string, target: string)

  /** The part of an item a renumbering reads or writes; `rest` stands for every other field. */
  datatype Item = Item(
    id: string,
    title: string,
    created: Option<int>,
    parent: string,
    epic: string,
    milestone: string,
    links: seq<Link>,
    body: string,
    rest: string)

  /** One reference a rewrite changed. */
  datatype Update = Update(path: string, field: string, oldId: string, newId: string)

  /** An empty reference stays empty whatever the mapping says. */
  function Repoint(ref: string, mapping: map<string, string>): string {
    if ref == "" then "" else Retarget(ref, mapping)
  }

  function RetargetLinks(links: seq<Link>, mapping: map<string, string>): (r: seq<Link>)
    ensures |r| == |links|
    ensures forall i :: 0 <= i < |links| ==> r[i] == Link(links[i].kind, Retarget(links[i].target, mapping))
  {
    seq(|links|, i requires 0 <= i < |links| => Link(links[i].kind, Retarget(links[i].target, mapping)))
  }

  function Rewritten(it: Item, mapping: map<string, string>): Item {
    it.(parent := Repoint(it.parent, mapping),
        epic := Repoint(it.epic, mapping),
        milestone := Repoint(it.milestone, mapping),
        links := RetargetLinks(it.links, mapping),
        body := Rewrite(it.body, mapping))
  }

  ghost function FieldUpdate(path: string, field: string, ref: string, mapping: map<string, string>): set<Update> {
    if ref != "" && ref in mapping then {Update(path, field, ref, mapping[ref])} else {}
  }

  ghost function LinkUpdates(path: string, links: seq<Link>, mapping: map<string, string>): set<Update> {
    set i | 0 <= i < |links| && links[i].target in mapping :: Update(path, "links", links[i].target, mapping[links[i].target])
  }

  ghost function BodyUpdates(path: string, body: string, mapping: map<string, string>): set<Update> {
    set id | id in Renumbered(Targets(body), mapping) :: Update(path, "body", id, mapping[id])
  }

  /** Every reference of an item that names a renumbered id. */
  ghost function Updates(path: string, it: Item, mapping: map<string, string>): set<Update> {
    FieldUpdate(path, "parent", it.parent, mapping)
    + FieldUpdate(path, "epic", it.epic, mapping)
    + FieldUpdate(path, "milestone", it.milestone, mapping)
    + LinkUpdates(path, it.links, mapping)
    + BodyUpdates(path, it.body, mapping)
  }

  /** None of the item's references is one of the ids. */
  ghost predicate NamesNone(it: Item, ids: set<string>) {
    && it.parent !in ids && it.epic !in ids && it.milestone !in ids
    && (forall l :: l in it.links ==> l.target !in ids)
    && (forall t :: t in Targets(it.body) ==> t !in ids)
  }

  /** A mapping a repair uses: old ids are not empty, and the new ones are clean and never renumbered again. */
  ghost predicate RepairMapping(mapping: map<string, string>) {
    CleanMapping(mapping) && "" !in mapping && forall id :: id in mapping ==> mapping[id] !in mapping
  }

  lemma {:induction false} RetargetedAvoids(ids: seq<string>, mapping: map<string, string>)
    requires forall id :: id in mapping ==> mapping[id] !in mapping
    ensures forall t :: t in RetargetAll(ids, mapping) ==> t !in mapping
  {
    if ids != [] {
      RetargetedAvoids(ids[1..], mapping);
    }
  }

  /** A rewritten item names no renumbered id any more, and keeps its identity and its text. */
  lemma RewrittenNamesNoOldId(it: Item, mapping: map<string, string>)
    requires RepairMapping(mapping)
    ensures var r := Rewritten(it, mapping);
            && NamesNone(r, mapping.Keys)
            && r.id == it.id && r.title == it.title && r.created == it.created && r.rest == it.rest
            && Targets(r.body) == RetargetAll(Targets(it.body), mapping)
            && Skeleton(r.body) == Skeleton(it.body)
  {
    RewriteRetargets(it.body, mapping);
    RetargetedAvoids(Targets(it.body), mapping);
    FieldsAvoid(it, mapping);
  }

  lemma FieldsAvoid(it: Item, mapping: map<string, string>)
    requires "" !in mapping && forall id :: id in mapping ==> mapping[id] !in mapping
    ensures Repoint(it.parent, mapping) !in mapping && Repoint(it.epic, mapping) !in mapping && Repoint(it.milestone, mapping) !in mapping
    ensures forall l :: l in RetargetLinks(it.links, mapping) ==> l.target !in mapping
  {
    RefAvoids(it.parent, mapping);
    RefAvoids(it.epic, mapping);
    RefAvoids(it.milestone, mapping);
    var links := RetargetLinks(it.links, mapping);
    forall i | 0 <= i < |links|
      ensures links[i].target !in mapping
    {
      TargetAvoids(it.links[i].target, mapping);
    }
  }

  lemma TargetAvoids(ref: string, mapping: map<string, string>)
    requires forall id :: id in mapping ==> mapping[id] !in mapping
    ensures Retarget(ref, mapping) !in mapping
  {
  }

  lemma RefAvoids(ref: string, mapping: map<string, string>)
    requires "" !in mapping && forall id :: id in mapping ==> mapping[id] !in mapping
    ensures Repoint(ref, mapping) !in mapping
  {
    TargetAvoids(ref, mapping);
  }

  /** A reference read before and after: the new id where the mapping has one, else the same reference. */
  predicate Follows(before: string, after: string, mapping: map<string, string>) {
    after == if before in mapping then mapping[before] else before
  }

  /** Every reference of the item follows the mapping, and nothing besides references and id differs. */
  ghost predicate PointsOn(before: Item, after: Item, mapping: map<string, string>) {
    && Follows(before.parent, after.parent, mapping)
    && Follows(before.epic, after.epic, mapping)
    && Follows(before.milestone, after.milestone, mapping)
    && |after.links| == |before.links|
    && (forall i :: 0 <= i < |before.links| ==>
          after.links[i].kind == before.links[i].kind && Follows(before.links[i].target, after.links[i].target, mapping))
    && |Targets(after.body)| == |Targets(before.body)|
    && (forall i :: 0 <= i < |Targets(before.body)| ==> Follows(Targets(before.body)[i], Targets(after.body)[i], mapping))
    && Skeleton(after.body) == Skeleton(before.body)
    && after.title == before.title && after.created == before.created && after.rest == before.rest
  }

  lemma {:induction false} EachFollows(ids: seq<string>, mapping: map<string, string>)
    ensures |RetargetAll(ids, mapping)| == |ids|
    ensures forall i :: 0 <= i < |ids| ==> Follows(ids[i], RetargetAll(ids, mapping)[i], mapping)
  {
    if ids != [] {
      EachFollows(ids[1..], mapping);
    }
  }

  /** Each of a rewritten item's references leads to the successor of what it led to. */
  lemma RewrittenPointsOn(it: Item, mapping: map<string, string>)
    requires RepairMapping(mapping)
    ensures PointsOn(it, Rewritten(it, mapping), mapping) && Rewritten(it, mapping).id == it.id
  {
    RewriteRetargets(it.body, mapping);
    EachFollows(Targets(it.body), mapping);
    FieldsFollow(it, mapping);
  }

  lemma FieldsFollow(it: Item, mapping: map<string, string>)
    requires "" !in mapping
    ensures Follows(it.parent, Repoint(it.parent, mapping), mapping) && Follows(it.epic, Repoint(it.epic, mapping), mapping)
    ensures Follows(it.milestone, Repoint(it.milestone, mapping), mapping)
    ensures forall i :: 0 <= i < |it.links| ==>
              RetargetLinks(it.links, mapping)[i].kind == it.links[i].kind
              && Follows(it.links[i].target, RetargetLinks(it.links, mapping)[i].target, mapping)
  {
  }

  ghost predicate FollowsIfClean(before: Item, after: Item, mapping: map<string, string>) {
    RepairMapping(mapping) ==> PointsOn(before, after, mapping) && after.id == before.id
  }

  lemma RewrittenFollows(it: Item, mapping: map<string, string>)
    ensures FollowsIfClean(it, Rewritten(it, mapping), mapping)
  {
    if RepairMapping(mapping) {
      RewrittenPointsOn(it, mapping);
    }
  }

  lemma UpdatesCoverBody(path: string, body: string, mapping: map<string, string>)
    ensures BodyUpdates(path, body, mapping) == {} ==> forall t :: t in Targets(body) ==> t !in mapping
  {
    assert forall t :: t in Renumbered(Targets(body), mapping) ==> Update(path, "body", t, mapping[t]) in BodyUpdates(path, body, mapping);
  }

  lemma UpdatesCoverLinks(path: string, links: seq<Link>, mapping: map<string, string>)
    ensures LinkUpdates(path, links, mapping) == {} ==> RetargetLinks(links, mapping) == links
  {
    assert forall i :: 0 <= i < |links| && links[i].target in mapping ==>
             Update(path, "links", links[i].target, mapping[links[i].target]) in LinkUpdates(path, links, mapping);
  }

  /** An item with nothing to update is left exactly as it is. */
  lemma NoUpdatesNoChange(path: string, it: Item, mapping: map<string, string>)
    requires Updates(path, it, mapping) == {}
    ensures Rewritten(it, mapping) == it
  {
    var all := Updates(path, it, mapping);
    assert FieldUpdate(path, "parent", it.parent, mapping) <= all;
    assert FieldUpdate(path, "epic", it.epic, mapping) <= all;
    assert FieldUpdate(path, "milestone", it.milestone, mapping) <= all;
    assert LinkUpdates(path, it.links, mapping) <= all;
    assert BodyUpdates(path, it.body, mapping) <= all;
    UpdatesCoverLinks(path, it.links, mapping);
    UpdatesCoverBody(path, it.body, mapping);
    RewriteFixes(it.body, mapping);
  }

  /** remap: the new value of one reference field, and the update it means. */
  method Remap(path: string, field: string, ref: string, mapping: map<string, string>) returns (to: string, updates: set<Update>)
    ensures to == Repoint(ref, mapping)
    ensures ref != "" ==> Follows(ref, to, mapping)
    ensures updates == FieldUpdate(path, field, ref, mapping)
  {
    if ref == "" || ref !in mapping {
      return ref, {};
    }
    return mapping[ref], {Update(path, field, ref, mapping[ref])};
  }

  /** A parsed item being edited in place. */
  class Draft {
    var path: string
    var item: Item

    constructor (path: string, item: Item)
      ensures this.path == path && this.item == item
    {
      this.path, this.item := path, item;
    }

    /** rewriteReferences: points every reference at the renumbered ids and reports what it changed. */
    method RewriteReferences(mapping: map<string, string>) returns (updates: set<Update>)
      modifies this`item
      ensures item == Rewritten(old(item), mapping)
      ensures FollowsIfClean(old(item), item, mapping)
      ensures updates == Updates(path, old(item), mapping)
    {
      var parent, u1 := Remap(path, "parent", item.parent, mapping);
      var epic, u2 := Remap(path, "epic", item.epic, mapping);
      var milestone, u3 := Remap(path, "milestone", item.milestone, mapping);
      item := item.(parent := parent, epic := epic, milestone := milestone);
      var linked := RewriteLinks(mapping);
      var body, changed := RewriteWikilinks(item.body, mapping);
      item := item.(body := body);
      var inBody := set id | id in changed :: Update(path, "body", id, mapping[id]);
      updates := u1 + u2 + u3 + linked + inBody;
      RewrittenFollows(old(item), mapping);
    }

    method RewriteLinks(mapping: map<string, string>) returns (updates: set<Update>)
      modifies this`item
      ensures item == old(item).(links := RetargetLinks(old(item.links), mapping))
      ensures updates == LinkUpdates(path, old(item.links), mapping)
    {
      updates := {};
      for i := 0 to |item.links|
        invariant item == old(item).(links := item.links) && |item.links| == |old(item.links)|
        invariant forall k :: 0 <= k < i ==> item.links[k] == RetargetLinks(old(item.links), mapping)[k]
        invariant forall k :: i <= k < |item.links| ==> item.links[k] == old(item.links)[k]
        invariant updates == LinkUpdates(path, old(item.links)[..i], mapping)
      {
        LinkUpdatesGrow(path, old(item.links), i, mapping);
        var target := item.links[i].target;
        if target in mapping {
          updates := updates + {Update(path, "links", target, mapping[target])};
          item := item.(links := item.links[i := item.links[i].(target := mapping[target])]);
        }
      }
      assert old(item.links)[..|item.links|] == old(item.links);
      assert item.links == RetargetLinks(old(item.links), mapping);
    }
  }

  lemma LinkUpdatesGrow(path: string, links: seq<Link>, i: nat, mapping: map<string, string>)
    requires i < |links|
    ensures LinkUpdates(path, links[..i + 1], mapping)
            == LinkUpdates(path, links[..i], mapping)
               + if links[i].target in mapping then {Update(path, "links", links[i].target, mapping[links[i].target])} else {}
  {
    var init, next := links[..i], links[..i + 1];
    assert next == init + [links[i]];
    forall u | u in LinkUpdates(path, next, mapping)
      ensures u in LinkUpdates(path, init, mapping)
              || (links[i].target in mapping && u == Update(path, "links", links[i].target, mapping[links[i].target]))
    {
      var k :| 0 <= k < |next| && next[k].target in mapping && u == Update(path, "links", next[k].target, mapping[next[k].target]);
      assert k < i ==> init[k] == next[k];
    }
    forall u | u in LinkUpdates(path, init, mapping)
      ensures u in LinkUpdates(path, next, mapping)
    {
      var k :| 0 <= k < |init| && init[k].target in mapping && u == Update(path, "links", init[k].target, mapping[init[k].target]);
      assert next[k] == init[k];
    }
    assert next[i] == links[i];
  }
}
