/**
 Playlists: the items of each playlist stay densely numbered, by the same
 two-phase renumbering as the queue, and only the owner can change them.
 */
module Playlists {
  import opened Wrappers
  import opened Positions

  /** The items of a playlist by id; UNIQUE (playlist_id, position) holds within each. */
  datatype Playlist = Playlist(owner: Id, positions: Column)

  datatype PlaylistError = NotFound | Storage

  predicate Owns(playlists: map<Id, Playlist>, user: Id, playlist: Id) {
    playlist in playlists && playlists[playlist].owner == user
  }

  predicate SameOwners(before: map<Id, Playlist>, after: map<Id, Playlist>) {
    before.Keys == after.Keys && forall p :: p in before ==> after[p].owner == before[p].owner
  }

  lemma OwnerStays(playlists: map<Id, Playlist>, p: Id, positions: Column)
    requires p in playlists
    ensures SameOwners(playlists, playlists[p := Playlist(playlists[p].owner, positions)])
  {
  }

  lemma OwnersStay(playlists: map<Id, Playlist>)
    ensures SameOwners(playlists, playlists)
  {
  }

  /** Positions freed by a delete close up. */
  lemma DeleteOrdered(positions: Column, ids: seq<Id>, id: Id) returns (k: nat)
    requires Numbers(positions, ids) && id in positions
    ensures k < |ids| && ids[k] == id && OrderedBy(positions - {id}, ids[..k] + ids[k + 1..])
    ensures Unique(positions - {id}) && NonNegative(positions - {id})
  {
    k := positions[id];
    NumbersDelete(positions, ids, k);
  }

  lemma AppendNumbered(positions: Column, ids: seq<Id>, id: Id)
    requires Numbers(positions, ids) && id !in positions
    ensures Numbers(positions[id := |ids|], ids + [id])
  {
  }

  class PlaylistStore {
    var playlists: map<Id, Playlist>
    ghost var order: map<Id, seq<Id>>

    ghost predicate Valid()
      reads this
    {
      order.Keys == playlists.Keys && forall p :: p in playlists ==> Numbers(playlists[p].positions, order[p])
    }

    constructor ()
      ensures Valid() && playlists == map[]
    {
      playlists, order := map[], map[];
    }

    /** New item ids are fresh, as for the queue. */
    method AddItem(user: Id, playlist: Id, id: Id, fault: bool) returns (r: Result<int, PlaylistError>)
      requires Valid() && forall p :: p in playlists ==> id !in playlists[p].positions
      modifies this
      ensures Valid()
      ensures r.Success? <==> !fault && Owns(old(playlists), user, playlist)
      ensures r.Success? ==> r.value == |old(order)[playlist]|
      ensures order == if r.Success? then old(order)[playlist := old(order)[playlist] + [id]] else old(order)
      ensures r.Failure? ==> playlists == old(playlists)
      ensures SameOwners(old(playlists), playlists)
      ensures r.Failure? && !fault ==> r.error == NotFound
    {
      hide Numbers;
      if !Owns(playlists, user, playlist) {
        return Failure(if fault then Storage else NotFound);
      }
      var positions := playlists[playlist].positions;
      var position := NextFree(positions, order[playlist]);
      if fault {
        return Failure(Storage);
      }
      AppendNumbered(positions, order[playlist], id);
      playlists := playlists[playlist := Playlist(user, positions[id := position])];
      order := order[playlist := order[playlist] + [id]];
      return Success(position);
    }

    /** Deletes one item and compacts its playlist; the others keep their relative order. */
    method RemoveItem(user: Id, playlist: Id, id: Id, fault: bool) returns (r: Result<(), PlaylistError>)
      requires Valid()
      modifies this
      ensures Valid()
      ensures r.Success? <==> !fault && Owns(old(playlists), user, playlist) && id in old(playlists)[playlist].positions
      ensures r.Failure? ==> playlists == old(playlists) && order == old(order)
      ensures SameOwners(old(playlists), playlists)
      ensures r.Failure? && !fault ==> r.error == NotFound
      ensures r.Success? ==>
        var ids := old(order)[playlist];
        exists k :: 0 <= k < |ids| && ids[k] == id && order == old(order)[playlist := ids[..k] + ids[k + 1..]]
    {
      hide Numbers, OrderedBy, Unique, NonNegative, SameOwners;
      OwnersStay(playlists);
      if !Owns(playlists, user, playlist) || id !in playlists[playlist].positions {
        return Failure(if fault then Storage else NotFound);
      }
      var saved := playlists;
      var positions := playlists[playlist].positions;
      ghost var ids := order[playlist];
      ghost var k := DeleteOrdered(positions, ids, id);
      playlists := playlists[playlist := Playlist(user, positions - {id})];
      var compacted, remaining := Compact(positions - {id});
      OrderedByIsUnique(positions - {id}, remaining, ids[..k] + ids[k + 1..]);
      OwnerStays(saved, playlist, compacted.value);
      playlists := playlists[playlist := Playlist(user, compacted.value)];
      assert playlists == saved[playlist := Playlist(user, compacted.value)];
      if fault {
        playlists := saved;
        return Failure(Storage);
      }
      order := order[playlist := ids[..k] + ids[k + 1..]];
      return Success(());
    }
  }
}
