/** The handlers of the video controller that hold logic: uploading a video
    (an ordered series of checks, one upload, then an insert and a `$push`
    onto the channel's video list) and fetching one video by id. Tag
    normalisation is in module Tags, the public-id helper in module
    PublicId. */
module VideoControllers {
  import opened Wrappers
  import opened Text
  import opened Entities
  import opened Database
  import opened Media
  import opened Tags

  /** The declared file types accepted for a video. */
  const AllowedMimeTypes: seq<string> := ["video/mp4", "video/quicktime", "video/x-m4v", "video/webm"]

  /** The reply text used when the host reports an error without a message. */
  const DefaultUploadFailure: string := "Cloudinary Upload Failed"

  /** `field?.trim()`: a missing field stays missing, a sent one is trimmed. */
  function TrimField(field: Option<string>): (r: Option<string>)
    ensures r.Some? <==> field.Some?
    ensures Truthy(r) <==> field.Some? && !AllSpace(field.value)
    ensures r.Some? ==> IsTrimmed(r.value)
  {
    if field.Some? then Some(Trim(field.value)) else None
  }

  /** `error.message || "Cloudinary Upload Failed"` */
  function FailureMessage(message: string): (m: string)
    ensures m != []
    ensures message != [] ==> m == message
    ensures message == [] ==> m == DefaultUploadFailure
  {
    if message != [] then message else DefaultUploadFailure
  }

  /** The checks of `uploadVideo` that come before the upload all pass. */
  predicate UploadAccepted(file: Option<File>, title: Option<string>, description: Option<string>,
                           uploader: Option<Id>, channelId: Option<Id>) {
    file.Some? && file.value.mimetype in AllowedMimeTypes &&
    uploader.Some? && channelId.Some? &&
    Truthy(TrimField(title)) && Truthy(TrimField(description))
  }

  /** `uploadVideo`. `uploader` and `channelId` are the caller's id and
      channel as the authentication middleware provides them. */
  method UploadVideo(db: Db, media: MediaStore, file: Option<File>,
                     title: Option<string>, description: Option<string>, tags: TagsField,
                     uploader: Option<Id>, channelId: Option<Id>)
    returns (reply: Reply<Doc<Video>>)
    requires db.Valid()
    modifies db, media
    ensures db.Valid()
    ensures file.None? ==> reply == Err(400, NoVideoUploaded)
    ensures file.Some? && file.value.mimetype !in AllowedMimeTypes ==> reply == Err(400, InvalidFileType)
    ensures file.Some? && file.value.mimetype in AllowedMimeTypes && uploader.None? ==>
              reply == Err(400, NoAuthorizedUser)
    ensures file.Some? && file.value.mimetype in AllowedMimeTypes && uploader.Some? && channelId.None? ==>
              reply == Err(400, NoChannelFound)
    ensures file.Some? && file.value.mimetype in AllowedMimeTypes && uploader.Some? && channelId.Some? &&
            !(Truthy(TrimField(title)) && Truthy(TrimField(description))) ==>
              reply == Err(400, TitleAndDescriptionRequired)
    ensures !UploadAccepted(file, title, description, uploader, channelId) ==>
              unchanged(db) && unchanged(media)
    ensures UploadAccepted(file, title, description, uploader, channelId) ==>
              media.sent == old(media.sent) + [UploadRequest(VideoFolder, file.value.buffer)]
    ensures UploadAccepted(file, title, description, uploader, channelId) ==>
              var result := media.videoHost(UploadRequest(VideoFolder, file.value.buffer));
              if result.VideoRejected? then
                reply == Err(500, UploadFailed(FailureMessage(result.message))) && unchanged(db)
              else
                reply.Ok? && reply.status == 201 &&
                reply.value.id !in old(db.videos) && reply.value.id != [] &&
                reply.value.fields == Video(Trim(title.value), Trim(description.value),
                                            uploader.value, channelId.value, result.secureUrl,
                                            result.thumbnailUrl.GetOr(""), result.duration.GetOr(""),
                                            NormalizeTags(tags)) &&
                db.videos == old(db.videos)[reply.value.id := reply.value.fields] &&
                db.channels == AppendVideo(old(db.channels), channelId.value, reply.value.id) &&
                db.users == old(db.users)
  {
    if file.None? {
      return Err(400, NoVideoUploaded);
    }
    if file.value.mimetype !in AllowedMimeTypes {
      return Err(400, InvalidFileType);
    }
    var trimmedTitle := TrimField(title);
    var trimmedDescription := TrimField(description);
    var tagList := NormalizeTags(tags);
    if uploader.None? {
      return Err(400, NoAuthorizedUser);
    }
    if channelId.None? {
      return Err(400, NoChannelFound);
    }
    if !Truthy(trimmedTitle) || !Truthy(trimmedDescription) {
      return Err(400, TitleAndDescriptionRequired);
    }
    reply := FinishUpload(db, media, file.value.buffer, trimmedTitle.value, trimmedDescription.value,
                          uploader.value, channelId.value, tagList);
  }

  /** The part of `uploadVideo` after its checks: the upload, then the insert
      of the video and the `$push` of its id onto the channel's list. A
      missing thumbnail or duration is stored as the empty string. */
  method FinishUpload(db: Db, media: MediaStore, buffer: seq<bv8>,
                      title: string, description: string, uploader: Id, channelId: Id,
                      tags: seq<string>)
    returns (reply: Reply<Doc<Video>>)
    requires db.Valid()
    modifies db, media
    ensures db.Valid()
    ensures media.sent == old(media.sent) + [UploadRequest(VideoFolder, buffer)]
    ensures var result := media.videoHost(UploadRequest(VideoFolder, buffer));
            if result.VideoRejected? then
              reply == Err(500, UploadFailed(FailureMessage(result.message))) && unchanged(db)
            else
              reply.Ok? && reply.status == 201 &&
              reply.value.id !in old(db.videos) && reply.value.id != [] &&
              reply.value.fields == Video(title, description, uploader, channelId, result.secureUrl,
                                          result.thumbnailUrl.GetOr(""), result.duration.GetOr(""), tags) &&
              db.videos == old(db.videos)[reply.value.id := reply.value.fields] &&
              db.channels == AppendVideo(old(db.channels), channelId, reply.value.id) &&
              db.users == old(db.users)
  {
    var result := media.UploadVideo(buffer);
    if result.VideoRejected? {
      return Err(500, UploadFailed(FailureMessage(result.message)));
    }
    var video := Video(title, description, uploader, channelId, result.secureUrl,
                       result.thumbnailUrl.GetOr(""), result.duration.GetOr(""), tags);
    var id := db.InsertVideo(video);
    db.PushVideo(channelId, id);
    reply := Ok(201, Doc(id, video));
  }

  /** `getCurrentVideo`: a malformed id is refused before any lookup, an
      unknown one is not found, a stored one is returned. Unlike the channel
      lookup there is no separate test for an empty id. */
  method GetCurrentVideo(db: Db, videoId: Id, isValid: Id -> bool) returns (reply: Reply<Doc<Video>>)
    ensures !isValid(videoId) ==> reply == Err(400, InvalidVideoId)
    ensures isValid(videoId) && videoId !in db.videos ==> reply == Err(404, VideoNotFound)
    ensures reply.Ok? <==> isValid(videoId) && videoId in db.videos
    ensures reply.Ok? ==> reply.status == 200 && reply.value == Doc(videoId, db.videos[videoId])
  {
    if !isValid(videoId) {
      return Err(400, InvalidVideoId);
    }
    if videoId !in db.videos {
      return Err(404, VideoNotFound);
    }
    reply := Ok(200, Doc(videoId, db.videos[videoId]));
  }
}
