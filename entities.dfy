/** The stored records of the backend (users, channels, videos), the request
    pieces the controllers read, their replies, and the `$set` updates the
    edit handler applies. */
module Entities {
  import opened Wrappers

  /** A document id. The format of a database object id is not modelled. */
  type Id = string

  datatype User = User(
    username: string,
    isChannelCreated: bool,
    channel: Option<Id>,
    channelAvatar: string)

  datatype Channel = Channel(
    channelName: string,
    owner: Id,
    description: string,
    channelAvatar: string,
    channelBanner: string,
    videos: seq<Id>)

  datatype Video = Video(
    title: string,
    description: string,
    uploader: Id,
    channelId: Id,
    videoUrl: string,
    thumbnailUrl: string,
    duration: string,
    tags: seq<string>)

  /** An uploaded multipart file: its declared type and its bytes. */
  datatype File = File(mimetype: string, buffer: seq<bv8>)

  /** `req.user` as the authentication middleware leaves it: the caller's id
      and the two channel fields of the caller's user record. */
  datatype AuthUser = AuthUser(id: Id, isChannelCreated: bool, channel: Option<Id>)

  /** A stored document together with its id, as the handlers return it. */
  datatype Doc<T> = Doc(id: Id, fields: T)

  /** Why a handler turned a request down, one case per distinct message. */
  datatype Reason =
    // uploadVideo
    | NoVideoUploaded
    | InvalidFileType
    | NoAuthorizedUser
    | NoChannelFound
    | TitleAndDescriptionRequired
    | UploadFailed(message: string)
    // getCurrentVideo
    | InvalidVideoId
    | VideoNotFound
    // getCurrentChannel
    | InvalidChannelId
    | ChannelNotFound
    // createChannel
    | NotLoggedIn
    | NameAndDescriptionRequired
    | ChannelNameExists
    | CreateFailed
    // editChannel
    | NoChannelToEdit
    | EmptyChannelName
    | UpdateFailed

  /** An HTTP reply: a status code with either a document or a reason. */
  datatype Reply<T> = Ok(status: nat, value: T) | Err(status: nat, reason: Reason)

  /** JavaScript truthiness of a request-body string field: `undefined` and
      `""` are falsy, every other string (blank ones included) is truthy. */
  predicate Truthy(field: Option<string>): (t: bool)
    ensures field.None? ==> !t
    ensures field == Some([]) ==> !t
    ensures field.Some? && field.value != [] ==> t
  {
    field.Some? && field.value != []
  }

  /** The `$set` document applied to a channel: only the fields present are
      written. */
  datatype ChannelUpdate = ChannelUpdate(
    channelName: Option<string>,
    description: Option<string>,
    channelAvatar: Option<string>,
    channelBanner: Option<string>)

  const NoChannelChange := ChannelUpdate(None, None, None, None)

  /** `$set` on a channel: every field the update carries is overwritten, every
      other field, the owner and the video list among them, is kept. */
  function ApplyChannelUpdate(c: Channel, u: ChannelUpdate): (r: Channel)
    ensures r.owner == c.owner && r.videos == c.videos
    ensures r.channelName == u.channelName.GetOr(c.channelName)
    ensures r.description == u.description.GetOr(c.description)
    ensures r.channelAvatar == u.channelAvatar.GetOr(c.channelAvatar)
    ensures r.channelBanner == u.channelBanner.GetOr(c.channelBanner)
  {
    Channel(
      u.channelName.GetOr(c.channelName),
      c.owner,
      u.description.GetOr(c.description),
      u.channelAvatar.GetOr(c.channelAvatar),
      u.channelBanner.GetOr(c.channelBanner),
      c.videos)
  }

  /** An empty `$set` leaves the channel as it was. */
  lemma {:induction false} EmptyChannelUpdate(c: Channel)
    ensures ApplyChannelUpdate(c, NoChannelChange) == c
  {
  }

  /** Applying the same `$set` twice is applying it once. */
  lemma {:induction false} ChannelUpdateIdempotent(c: Channel, u: ChannelUpdate)
    ensures ApplyChannelUpdate(ApplyChannelUpdate(c, u), u) == ApplyChannelUpdate(c, u)
  {
  }

  /** The `$set` document applied to a user by the edit handler: it can only
      carry the channel avatar. */
  datatype UserUpdate = UserUpdate(channelAvatar: Option<string>)

  /** `$set` on a user: only the channel avatar may change. */
  function ApplyUserUpdate(user: User, u: UserUpdate): (r: User)
    ensures r.username == user.username
    ensures r.isChannelCreated == user.isChannelCreated && r.channel == user.channel
    ensures r.channelAvatar == u.channelAvatar.GetOr(user.channelAvatar)
  {
    user.(channelAvatar := u.channelAvatar.GetOr(user.channelAvatar))
  }
}
