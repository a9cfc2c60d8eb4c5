/** Properties that span several requests, stated as client methods that send
    the requests in turn against one store. */
module Scenarios {
  import opened Wrappers
  import opened Text
  import opened Entities
  import opened Database
  import opened Media
  import opened Tags
  import opened ChannelControllers
  import opened VideoControllers

  /** A created channel can be fetched by the id the create reply carries. */
  method CreateThenFetch(db: Db, media: MediaStore, user: Option<AuthUser>,
                         channelName: string, description: string,
                         avatar: Option<File>, banner: Option<File>, isValid: Id -> bool)
    returns (created: Reply<Doc<Channel>>, fetched: Reply<Doc<Channel>>)
    requires db.Valid()
    modifies db, media
    ensures db.Valid()
    ensures created.Ok? && isValid(created.value.id) ==> fetched == Ok(200, created.value)
  {
    created := CreateChannel(db, media, user, channelName, description, avatar, banner);
    if created.Ok? {
      fetched := GetCurrentChannel(db, created.value.id, isValid);
    } else {
      fetched := created;
    }
  }

  /** A second create request whose name trims to the name of a channel just
      created is turned down as a duplicate, and changes nothing. */
  method CreateTwice(db: Db, media: MediaStore, first: Option<AuthUser>, second: AuthUser,
                     name1: string, description1: string, name2: string, description2: string,
                     avatar: Option<File>, banner: Option<File>)
    returns (reply1: Reply<Doc<Channel>>, reply2: Reply<Doc<Channel>>)
    requires db.Valid()
    requires Trim(name2) == Trim(name1) && Trim(description2) != []
    modifies db, media
    ensures db.Valid()
    ensures reply1.Ok? ==> reply2 == Err(400, ChannelNameExists)
    ensures reply1.Ok? ==> db.channels == old(db.channels)[reply1.value.id := reply1.value.fields]
  {
    reply1 := CreateChannel(db, media, first, name1, description1, avatar, banner);
    if reply1.Ok? {
      assert db.channels[reply1.value.id].channelName == Trim(name2);
    }
    reply2 := CreateChannel(db, media, Some(second), name2, description2, None, None);
  }

  /** An uploaded video can be fetched by the id the upload reply carries, and
      it is the last entry of its channel's list, which grew by one. */
  method UploadThenFetch(db: Db, media: MediaStore, file: Option<File>,
                         title: Option<string>, description: Option<string>, tags: TagsField,
                         uploader: Option<Id>, channelId: Id, isValid: Id -> bool)
    returns (uploaded: Reply<Doc<Video>>, fetched: Reply<Doc<Video>>)
    requires db.Valid() && channelId in db.channels
    modifies db, media
    ensures db.Valid()
    ensures uploaded.Ok? && isValid(uploaded.value.id) ==> fetched == Ok(200, uploaded.value)
    ensures uploaded.Ok? ==>
              channelId in db.channels &&
              var list := db.channels[channelId].videos;
              list == old(db.channels[channelId].videos) + [uploaded.value.id]
  {
    uploaded := UploadVideo(db, media, file, title, description, tags, uploader, Some(channelId));
    if uploaded.Ok? {
      fetched := GetCurrentVideo(db, uploaded.value.id, isValid);
    } else {
      fetched := uploaded;
    }
  }
}
