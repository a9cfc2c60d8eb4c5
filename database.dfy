/** The three collections the controllers read and write, as maps from ids
    to records, with the few store operations they use: lookup, insert,
    `$set` on one document and `$push` onto a channel's video list. */
module Database {
  import opened Wrappers
  import opened Entities

  /** `findOne({ channelName: name })` finds a document: some stored
      channel carries exactly that name. An empty collection takes no name. */
  predicate NameTaken(channels: map<Id, Channel>, name: string): (taken: bool)
    ensures forall id :: id in channels && channels[id].channelName == name ==> taken
    ensures channels == map[] ==> !taken
  {
    exists c :: c in channels && channels[c].channelName == name
  }

  /** After `create` stores `c` under a new id, a name is taken exactly when
      it is `c`'s name or was taken before. */
  lemma {:induction false} NameTakenAfterInsert(channels: map<Id, Channel>, id: Id, c: Channel, name: string)
    requires id !in channels
    ensures NameTaken(channels[id := c], name) <==> name == c.channelName || NameTaken(channels, name)
  {
    if NameTaken(channels[id := c], name) && name != c.channelName {
      var k :| k in channels[id := c] && channels[id := c][k].channelName == name;
      assert k != id && k in channels;
    }
    if name == c.channelName {
      assert channels[id := c][id].channelName == name;
    } else if NameTaken(channels, name) {
      var k :| k in channels && channels[k].channelName == name;
      assert k in channels[id := c] && channels[id := c][k].channelName == name;
    }
  }

  predicate NoDuplicates<T(==)>(xs: seq<T>) {
    forall i, j :: 0 <= i < j < |xs| ==> xs[i] != xs[j]
  }

  /** The user update of `createChannel`: the owner is marked as having a
      channel and points at it; a missing user is left missing, as an update
      by id that finds nothing writes nothing. */
  function MarkChannelCreated(users: map<Id, User>, uid: Id, cid: Id): (r: map<Id, User>)
    ensures r.Keys == users.Keys
    ensures forall u :: u in users && u != uid ==> r[u] == users[u]
    ensures uid in users ==>
              r[uid].isChannelCreated && r[uid].channel == Some(cid) &&
              r[uid].username == users[uid].username &&
              r[uid].channelAvatar == users[uid].channelAvatar
  {
    if uid in users then users[uid := users[uid].(isChannelCreated := true, channel := Some(cid))]
    else users
  }

  /** A `$set` on one user found by id; nothing happens when there is none. */
  function UpdateUser(users: map<Id, User>, uid: Id, u: UserUpdate): (r: map<Id, User>)
    ensures r.Keys == users.Keys
    ensures forall x :: x in users && x != uid ==> r[x] == users[x]
    ensures uid in users ==> r[uid] == ApplyUserUpdate(users[uid], u)
  {
    if uid in users then users[uid := ApplyUserUpdate(users[uid], u)] else users
  }

  /** `$push: { videos: vid }` on the channel found by `cid`: the id goes to
      the end of that channel's list; every other channel, and every other
      field of that one, is kept; nothing happens when there is no such
      channel. */
  function AppendVideo(channels: map<Id, Channel>, cid: Id, vid: Id): (r: map<Id, Channel>)
    ensures r.Keys == channels.Keys
    ensures forall c :: c in channels && c != cid ==> r[c] == channels[c]
    ensures cid in channels ==>
              r[cid].videos == channels[cid].videos + [vid] &&
              r[cid].(videos := channels[cid].videos) == channels[cid]
  {
    if cid in channels then channels[cid := channels[cid].(videos := channels[cid].videos + [vid])]
    else channels
  }

  /** Every id in use is shorter than `bound`. */
  predicate IdsBelow<T>(m: map<Id, T>, bound: nat) {
    forall k :: k in m ==> |k| < bound
  }

  /** Every id in a channel's video list names a stored video of that
      channel and appears once in the list. */
  predicate ListsValid(channels: map<Id, Channel>, videos: map<Id, Video>) {
    forall c :: c in channels ==>
      NoDuplicates(channels[c].videos) &&
      forall v :: v in channels[c].videos ==> v in videos && videos[v].channelId == c
  }

  /** A user marked as having a channel points at a stored one. */
  predicate OwnersValid(users: map<Id, User>, channels: map<Id, Channel>) {
    forall u :: u in users && users[u].isChannelCreated ==>
      users[u].channel.Some? && users[u].channel.value in channels
  }

  /** An id no channel lists. */
  predicate Unlisted(channels: map<Id, Channel>, vid: Id) {
    forall c :: c in channels ==> vid !in channels[c].videos
  }

  lemma {:induction false} ListsAfterAppend(channels: map<Id, Channel>, videos: map<Id, Video>, cid: Id, vid: Id)
    requires ListsValid(channels, videos) && Unlisted(channels, vid)
    requires vid in videos && videos[vid].channelId == cid
    ensures ListsValid(AppendVideo(channels, cid, vid), videos)
  {
    var r := AppendVideo(channels, cid, vid);
    if cid in channels {
      var xs := channels[cid].videos;
      assert r[cid].videos == xs + [vid];
      assert vid !in xs;
      assert NoDuplicates(xs + [vid]);
    }
  }

  lemma {:induction false} ListsAfterInsert(channels: map<Id, Channel>, videos: map<Id, Video>, vid: Id, v: Video)
    requires ListsValid(channels, videos) && vid !in videos
    ensures ListsValid(channels, videos[vid := v]) && Unlisted(channels, vid)
  {
  }

  class Db {
    var users: map<Id, User>
    var channels: map<Id, Channel>
    var videos: map<Id, Video>
    /** Every channel and video id in use is shorter than this: a string of
        this length is a fresh id, and never the empty one. */
    var keyLength: nat

    /** The store's invariant: ids in use are below the fresh-id bound; the
        channels' video lists are valid; a user marked as having a channel
        points at a stored one. */
    ghost predicate Valid()
      reads this
    {
      keyLength > 0 && IdsBelow(channels, keyLength) && IdsBelow(videos, keyLength) &&
      ListsValid(channels, videos) && OwnersValid(users, channels)
    }

    /** A store with the given users and no channels or videos yet. */
    constructor (users0: map<Id, User>)
      requires forall u :: u in users0 ==> !users0[u].isChannelCreated
      ensures Valid()
      ensures users == users0 && channels == map[] && videos == map[]
    {
      users := users0;
      channels := map[];
      videos := map[];
      keyLength := 1;
    }

    /** A new document id, used by no channel and no video. */
    method NewId() returns (id: Id)
      requires Valid()
      modifies this`keyLength
      ensures Valid()
      ensures id !in channels && id !in videos && |id| < keyLength && id != []
    {
      id := seq(keyLength, _ => 'a');
      keyLength := keyLength + 1;
    }

    /** `channelModel.create`: stores a channel without videos under a new id. */
    method InsertChannel(c: Channel) returns (id: Id)
      requires Valid() && c.videos == []
      modifies this
      ensures Valid()
      ensures id !in old(channels) && id != [] && channels == old(channels)[id := c]
      ensures users == old(users) && videos == old(videos)
    {
      id := NewId();
      channels := channels[id := c];
    }

    /** Overwrites a stored channel, keeping its video list. */
    method SetChannel(id: Id, c: Channel)
      requires Valid() && id in channels && c.videos == channels[id].videos
      modifies this`channels
      ensures Valid()
      ensures channels == old(channels)[id := c]
    {
      channels := channels[id := c];
    }

    /** The user update of `createChannel`. */
    method MarkCreated(uid: Id, cid: Id)
      requires Valid() && cid in channels
      modifies this`users
      ensures Valid()
      ensures users == MarkChannelCreated(old(users), uid, cid)
    {
      users := MarkChannelCreated(users, uid, cid);
    }

    /** The user update of `editChannel`. */
    method SetUser(uid: Id, u: UserUpdate)
      requires Valid()
      modifies this`users
      ensures Valid()
      ensures users == UpdateUser(old(users), uid, u)
    {
      users := UpdateUser(users, uid, u);
    }

    /** `videoModel.create`: stores a video under a new id, which no channel
        lists yet. */
    method InsertVideo(v: Video) returns (id: Id)
      requires Valid()
      modifies this
      ensures Valid()
      ensures id !in old(videos) && id != [] && videos == old(videos)[id := v]
      ensures users == old(users) && channels == old(channels)
      ensures Unlisted(channels, id)
    {
      id := NewId();
      ListsAfterInsert(channels, videos, id, v);
      videos := videos[id := v];
    }

    /** `$push` of a stored video onto the list of the channel it belongs to;
        the video must not be listed yet. */
    method PushVideo(cid: Id, vid: Id)
      requires Valid()
      requires vid in videos && videos[vid].channelId == cid
      requires Unlisted(channels, vid)
      modifies this`channels
      ensures Valid()
      ensures channels == AppendVideo(old(channels), cid, vid)
    {
      ListsAfterAppend(channels, videos, cid, vid);
      channels := AppendVideo(channels, cid, vid);
    }
  }
}
