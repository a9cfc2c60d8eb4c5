/** The three handlers of the channel controller: fetching a channel by id,
    creating the caller's channel, and editing it. Each runs an ordered
    series of checks, each of which ends the request with a client error
    before anything is uploaded or written; only then does it upload the
    optional avatar and banner images and write to the store. */
module ChannelControllers {
  import opened Wrappers
  import opened Text
  import opened Entities
  import opened Database
  import opened Media

  /** `getCurrentChannel`: a missing or malformed id is refused before any
      lookup, an unknown one is not found, a stored one is returned. The
      well-formedness test for ids is the parameter `isValid`. */
  method GetCurrentChannel(db: Db, id: Id, isValid: Id -> bool) returns (reply: Reply<Doc<Channel>>)
    ensures id == [] || !isValid(id) ==> reply == Err(400, InvalidChannelId)
    ensures id != [] && isValid(id) && id !in db.channels ==> reply == Err(404, ChannelNotFound)
    ensures reply.Ok? <==> id != [] && isValid(id) && id in db.channels
    ensures reply.Ok? ==> reply.status == 200 && reply.value == Doc(id, db.channels[id])
  {
    if id == [] || !isValid(id) {
      return Err(400, InvalidChannelId);
    }
    if id !in db.channels {
      return Err(404, ChannelNotFound);
    }
    reply := Ok(200, Doc(id, db.channels[id]));
  }

  /** The image uploads a create or edit request sends, in order: the
      avatar's, then the banner's unless the avatar upload failed. */
  function ImageRequests(host: UploadRequest -> Option<string>, avatar: Option<File>, banner: Option<File>): (reqs: seq<UploadRequest>)
    ensures |reqs| <= 2
    ensures avatar.None? && banner.None? ==> reqs == []
    ensures avatar.Some? ==> |reqs| >= 1 && reqs[0] == UploadRequest(AvatarFolder, avatar.value.buffer)
    ensures StepOf(host, avatar, AvatarFolder).Failed? ==> |reqs| == 1
    ensures |reqs| == |RequestsFor(avatar, AvatarFolder)| +
                      (if StepOf(host, avatar, AvatarFolder).Failed? then 0 else |RequestsFor(banner, BannerFolder)|)
    ensures banner.Some? && !StepOf(host, avatar, AvatarFolder).Failed? ==>
              reqs[|reqs| - 1] == UploadRequest(BannerFolder, banner.value.buffer)
  {
    RequestsFor(avatar, AvatarFolder) +
    if StepOf(host, avatar, AvatarFolder).Failed? then [] else RequestsFor(banner, BannerFolder)
  }

  /** Uploads the avatar, then, unless that failed, the banner; a missing
      file is skipped. When the avatar upload fails the banner's outcome is
      meaningless. */
  method UploadImages(media: MediaStore, avatar: Option<File>, banner: Option<File>)
    returns (a: ImageStep, b: ImageStep)
    modifies media
    ensures a == StepOf(media.imageHost, avatar, AvatarFolder)
    ensures !a.Failed? ==> b == StepOf(media.imageHost, banner, BannerFolder)
    ensures media.sent == old(media.sent) + ImageRequests(media.imageHost, avatar, banner)
  {
    a := media.UploadOptional(avatar, AvatarFolder);
    if a.Failed? {
      return a, Skipped;
    }
    b := media.UploadOptional(banner, BannerFolder);
  }

  /** The checks of `createChannel` that come before any upload all pass: a
      caller, a name and a description that are not blank, and a name no
      stored channel has. */
  predicate CreateAccepted(user: Option<AuthUser>, channelName: string, description: string, channels: map<Id, Channel>) {
    user.Some? && Trim(channelName) != [] && Trim(description) != [] &&
    !NameTaken(channels, Trim(channelName))
  }

  /** `createChannel`. The caller is not required to be without a channel:
      a second channel is created and the caller's user record is pointed at
      it. */
  method CreateChannel(db: Db, media: MediaStore, user: Option<AuthUser>,
                       channelName: string, description: string,
                       avatar: Option<File>, banner: Option<File>)
    returns (reply: Reply<Doc<Channel>>)
    requires db.Valid()
    modifies db, media
    ensures db.Valid()
    ensures user.None? ==> reply == Err(400, NotLoggedIn)
    ensures user.Some? && (Trim(channelName) == [] || Trim(description) == []) ==>
              reply == Err(400, NameAndDescriptionRequired)
    ensures user.Some? && Trim(channelName) != [] && Trim(description) != [] &&
            NameTaken(old(db.channels), Trim(channelName)) ==>
              reply == Err(400, ChannelNameExists)
    ensures !CreateAccepted(user, channelName, description, old(db.channels)) ==>
              unchanged(db) && unchanged(media)
    ensures CreateAccepted(user, channelName, description, old(db.channels)) ==>
              media.sent == old(media.sent) + ImageRequests(media.imageHost, avatar, banner)
    ensures CreateAccepted(user, channelName, description, old(db.channels)) ==>
              var a := StepOf(media.imageHost, avatar, AvatarFolder);
              var b := StepOf(media.imageHost, banner, BannerFolder);
              if a.Failed? || b.Failed? then
                reply == Err(500, CreateFailed) && unchanged(db)
              else
                reply.Ok? && reply.status == 201 &&
                reply.value.id !in old(db.channels) && reply.value.id != [] &&
                reply.value.fields == Channel(Trim(channelName), user.value.id, Trim(description),
                                              a.Url().GetOr(""), b.Url().GetOr(""), []) &&
                db.channels == old(db.channels)[reply.value.id := reply.value.fields] &&
                db.users == MarkChannelCreated(old(db.users), user.value.id, reply.value.id) &&
                db.videos == old(db.videos)
  {
    var name := Trim(channelName);
    var desc := Trim(description);
    if user.None? {
      return Err(400, NotLoggedIn);
    }
    if name == [] || desc == [] {
      return Err(400, NameAndDescriptionRequired);
    }
    if NameTaken(db.channels, name) {
      return Err(400, ChannelNameExists);
    }
    reply := FinishCreate(db, media, user.value.id, name, desc, avatar, banner);
  }

  /** The part of `createChannel` after its checks: the uploads, then the
      insert of the channel and the update of its owner. An image that was
      not sent leaves its URL empty. */
  method FinishCreate(db: Db, media: MediaStore, owner: Id, name: string, description: string,
                      avatar: Option<File>, banner: Option<File>)
    returns (reply: Reply<Doc<Channel>>)
    requires db.Valid()
    modifies db, media
    ensures db.Valid()
    ensures media.sent == old(media.sent) + ImageRequests(media.imageHost, avatar, banner)
    ensures var a := StepOf(media.imageHost, avatar, AvatarFolder);
            var b := StepOf(media.imageHost, banner, BannerFolder);
            if a.Failed? || b.Failed? then
              reply == Err(500, CreateFailed) && unchanged(db)
            else
              reply.Ok? && reply.status == 201 &&
              reply.value.id !in old(db.channels) && reply.value.id != [] &&
              reply.value.fields == Channel(name, owner, description,
                                            a.Url().GetOr(""), b.Url().GetOr(""), []) &&
              db.channels == old(db.channels)[reply.value.id := reply.value.fields] &&
              db.users == MarkChannelCreated(old(db.users), owner, reply.value.id) &&
              db.videos == old(db.videos)
  {
    var a, b := UploadImages(media, avatar, banner);
    if a.Failed? || b.Failed? {
      return Err(500, CreateFailed);
    }
    var channel := Channel(name, owner, description, a.Url().GetOr(""), b.Url().GetOr(""), []);
    var id := db.InsertChannel(channel);
    db.MarkCreated(owner, id);
    reply := Ok(201, Doc(id, channel));
  }

  /** The caller has a channel and it is stored. */
  predicate OwnsStoredChannel(user: Option<AuthUser>, channels: map<Id, Channel>) {
    user.Some? && user.value.isChannelCreated &&
    user.value.channel.Some? && user.value.channel.value in channels
  }

  /** A new name, when one is sent, is not blank and is either the current
      name or one no stored channel has. */
  predicate NameAcceptable(channelName: Option<string>, current: Channel, channels: map<Id, Channel>) {
    !Truthy(channelName) ||
    (Trim(channelName.value) != [] &&
     (Trim(channelName.value) == current.channelName || !NameTaken(channels, Trim(channelName.value))))
  }

  /** The checks of `editChannel` that come before any upload all pass. */
  predicate EditAccepted(user: Option<AuthUser>, channelName: Option<string>, channels: map<Id, Channel>) {
    OwnsStoredChannel(user, channels) &&
    NameAcceptable(channelName, channels[user.value.channel.value], channels)
  }

  /** The `updates` object of `editChannel`: a sent name or description,
      trimmed, and the URLs of the images that were uploaded. */
  function EditUpdates(channelName: Option<string>, description: Option<string>,
                       avatarUrl: Option<string>, bannerUrl: Option<string>): (u: ChannelUpdate)
    ensures u.channelName.Some? <==> Truthy(channelName)
    ensures u.description.Some? <==> Truthy(description)
    ensures u.channelAvatar == avatarUrl && u.channelBanner == bannerUrl
  {
    ChannelUpdate(
      if Truthy(channelName) then Some(Trim(channelName.value)) else None,
      if Truthy(description) then Some(Trim(description.value)) else None,
      avatarUrl,
      bannerUrl)
  }

  /** `editChannel`: a sparse update of the caller's channel; a new avatar is
      copied to the caller's user record, a new banner is not. */
  method EditChannel(db: Db, media: MediaStore, user: Option<AuthUser>,
                     channelName: Option<string>, description: Option<string>,
                     avatar: Option<File>, banner: Option<File>)
    returns (reply: Reply<Doc<Channel>>)
    requires db.Valid()
    modifies db, media
    ensures db.Valid()
    ensures user.None? || !user.value.isChannelCreated ==> reply == Err(403, NoChannelToEdit)
    ensures user.Some? && user.value.isChannelCreated && !OwnsStoredChannel(user, old(db.channels)) ==>
              reply == Err(404, ChannelNotFound)
    ensures OwnsStoredChannel(user, old(db.channels)) && Truthy(channelName) &&
            Trim(channelName.value) == [] ==>
              reply == Err(400, EmptyChannelName)
    ensures OwnsStoredChannel(user, old(db.channels)) && Truthy(channelName) &&
            Trim(channelName.value) != [] ==>
              (reply == Err(400, ChannelNameExists) <==>
               Trim(channelName.value) != old(db.channels)[user.value.channel.value].channelName &&
               NameTaken(old(db.channels), Trim(channelName.value)))
    ensures !EditAccepted(user, channelName, old(db.channels)) ==> unchanged(db) && unchanged(media)
    ensures EditAccepted(user, channelName, old(db.channels)) ==>
              media.sent == old(media.sent) + ImageRequests(media.imageHost, avatar, banner)
    ensures EditAccepted(user, channelName, old(db.channels)) ==>
              var cid := user.value.channel.value;
              var a := StepOf(media.imageHost, avatar, AvatarFolder);
              var b := StepOf(media.imageHost, banner, BannerFolder);
              if a.Failed? || b.Failed? then
                reply == Err(500, UpdateFailed) && unchanged(db)
              else
                var updated := ApplyChannelUpdate(old(db.channels)[cid],
                                                  EditUpdates(channelName, description, a.Url(), b.Url()));
                reply == Ok(200, Doc(cid, updated)) &&
                db.channels == old(db.channels)[cid := updated] &&
                db.users == UpdateUser(old(db.users), user.value.id, UserUpdate(a.Url())) &&
                db.videos == old(db.videos)
  {
    if user.None? || !user.value.isChannelCreated {
      return Err(403, NoChannelToEdit);
    }
    if user.value.channel.None? || user.value.channel.value !in db.channels {
      return Err(404, ChannelNotFound);
    }
    var cid := user.value.channel.value;
    var channel := db.channels[cid];
    if Truthy(channelName) {
      var newName := Trim(channelName.value);
      if newName == [] {
        return Err(400, EmptyChannelName);
      }
      if newName != channel.channelName && NameTaken(db.channels, newName) {
        return Err(400, ChannelNameExists);
      }
    }
    reply := FinishEdit(db, media, user.value.id, cid, channelName, description, avatar, banner);
  }

  /** The part of `editChannel` after its checks: the uploads, then the two
      `$set` writes. */
  method FinishEdit(db: Db, media: MediaStore, uid: Id, cid: Id,
                    channelName: Option<string>, description: Option<string>,
                    avatar: Option<File>, banner: Option<File>)
    returns (reply: Reply<Doc<Channel>>)
    requires db.Valid() && cid in db.channels
    modifies db, media
    ensures db.Valid()
    ensures media.sent == old(media.sent) + ImageRequests(media.imageHost, avatar, banner)
    ensures var a := StepOf(media.imageHost, avatar, AvatarFolder);
            var b := StepOf(media.imageHost, banner, BannerFolder);
            if a.Failed? || b.Failed? then
              reply == Err(500, UpdateFailed) && unchanged(db)
            else
              var updated := ApplyChannelUpdate(old(db.channels)[cid],
                                                EditUpdates(channelName, description, a.Url(), b.Url()));
              reply == Ok(200, Doc(cid, updated)) &&
              db.channels == old(db.channels)[cid := updated] &&
              db.users == UpdateUser(old(db.users), uid, UserUpdate(a.Url())) &&
              db.videos == old(db.videos)
  {
    var a, b := UploadImages(media, avatar, banner);
    if a.Failed? || b.Failed? {
      return Err(500, UpdateFailed);
    }
    var updated := ApplyChannelUpdate(db.channels[cid], EditUpdates(channelName, description, a.Url(), b.Url()));
    db.SetChannel(cid, updated);
    db.SetUser(uid, UserUpdate(a.Url()));
    reply := Ok(200, Doc(cid, updated));
  }

  /** The channel an accepted edit stores: the owner and the video list are
      kept, a field that was not sent is kept, a sent name or description is
      stored trimmed, and an uploaded image's URL replaces the old one. */
  lemma {:induction false} EditedChannel(c: Channel, channelName: Option<string>, description: Option<string>,
                      avatarUrl: Option<string>, bannerUrl: Option<string>)
    ensures var r := ApplyChannelUpdate(c, EditUpdates(channelName, description, avatarUrl, bannerUrl));
            r.owner == c.owner && r.videos == c.videos &&
            r.channelName == (if Truthy(channelName) then Trim(channelName.value) else c.channelName) &&
            r.description == (if Truthy(description) then Trim(description.value) else c.description) &&
            r.channelAvatar == avatarUrl.GetOr(c.channelAvatar) &&
            r.channelBanner == bannerUrl.GetOr(c.channelBanner)
  {
  }

  /** A description made only of spaces is truthy, so it is sent on and
      stored as the empty string. */
  lemma {:induction false} BlankDescriptionStoredEmpty(c: Channel, channelName: Option<string>, description: string,
                                    avatarUrl: Option<string>, bannerUrl: Option<string>)
    requires description != [] && AllSpace(description)
    ensures ApplyChannelUpdate(c, EditUpdates(channelName, Some(description), avatarUrl, bannerUrl)).description == []
  {
  }

  /** Sending the channel's current name again passes the checks, although
      that name is taken, by the channel itself: the uniqueness check only
      runs for a changed name. */
  lemma {:induction false} CurrentNameAccepted(user: Option<AuthUser>, channelName: string, channels: map<Id, Channel>)
    requires OwnsStoredChannel(user, channels)
    requires Trim(channelName) == channels[user.value.channel.value].channelName
    requires Trim(channelName) != []
    ensures NameTaken(channels, Trim(channelName))
    ensures EditAccepted(user, Some(channelName), channels)
  {
    var cid := user.value.channel.value;
    assert channels[cid].channelName == Trim(channelName);
  }

  /** Once a channel is stored under a name, a create request whose name
      trims to that name is turned down. */
  lemma {:induction false} CreatedNameBlocksCreate(channels: map<Id, Channel>, id: Id, c: Channel,
                                user: Option<AuthUser>, channelName: string, description: string)
    requires Trim(channelName) == c.channelName
    ensures !CreateAccepted(user, channelName, description, channels[id := c])
  {
    assert channels[id := c][id].channelName == Trim(channelName);
  }

  /** Once a channel is stored under a name, an edit of another channel to
      that name is turned down. */
  lemma {:induction false} CreatedNameBlocksRename(channels: map<Id, Channel>, id: Id, c: Channel,
                                user: Option<AuthUser>, channelName: string)
    requires OwnsStoredChannel(user, channels[id := c])
    requires Trim(channelName) == c.channelName && c.channelName != []
    requires channels[id := c][user.value.channel.value].channelName != c.channelName
    ensures !EditAccepted(user, Some(channelName), channels[id := c])
  {
    assert channels[id := c][id].channelName == Trim(channelName);
    assert !AllSpace(channelName);
  }
}
