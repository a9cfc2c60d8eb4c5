# Video backend controllers, modelled in Dafny

This project models the logic of a video-sharing backend: its channel
controller and its video controller. These are Express handlers over a
MongoDB store and a Cloudinary-style media host. The model covers:

- the handlers that fetch a channel or a video by id;
- creating a channel and editing the caller's channel;
- uploading a video;
- the two string helpers of the video controller: the public id of a media
  URL, and the normalisation of the `tags` request field.

How the model is organised:

- `Text` (`text.dfy`): JavaScript's `String.prototype.trim` (ECMAScript
  whitespace and line terminators) and `split` with a one-character
  separator, together with `join`, its inverse.
- `PublicId` (`public_id.dfy`): `getPublicIdFromUrl`.
- `Tags` (`tags.dfy`): the tag normalisation block of `uploadVideo`. An array
  is cut to two entries and each is trimmed. A string is split on commas,
  trimmed, cleared of empty pieces and cut to two. Anything else gives no
  tags.
- `Entities` (`entities.dfy`): users, channels, videos, request files, the
  authenticated caller (`req.user`), replies (a status code with a document
  or a reason) and the `$set` updates of the edit handler.
- `Database` (`database.dfy`): class `Db`, the three collections as maps from
  id to record. Its methods are the store operations the handlers use:
  insert with a fresh id, `$set` by id and `$push` onto a channel's video
  list. `Db.Valid` is the invariant every handler keeps. Ids in use are below
  the fresh-id bound. Every id in a channel's video list names a stored video
  of that channel and appears once. A user marked as having a channel points
  at a stored one.
- `Media` (`media.dfy`): class `MediaStore`. The host's answer to an upload
  is a fixed but arbitrary function of the request (folder and bytes). Every
  request sent is logged, so that "no upload happened" can be stated.
- `ChannelControllers` and `VideoControllers`: one method per handler. Each
  states its ordered checks, each with its status code. It states that a
  rejected request changes neither the store nor the upload log. On success
  it states the whole new store. `CreateChannel`, `EditChannel` and
  `UploadVideo` hand the part after their checks to `FinishCreate`,
  `FinishEdit` and `FinishUpload`.
- `Scenarios` (`scenarios.dfy`): client methods for properties that span
  several requests. A created channel or uploaded video can be fetched back,
  and a second channel with the same trimmed name is refused.

The object-id validity test (`mongoose.Types.ObjectId.isValid`) is a
parameter `isValid` of the two lookup handlers. The authenticated caller is a
parameter as well, as the authentication middleware would supply it.

Two behaviours of the code worth knowing:

- Array-form tags are not filtered. An entry made only of spaces stays in the
  list as `""`; see `Tags.ArrayKeepsBlank`. Only the string form drops empty
  pieces.
- `createChannel` does not refuse a caller who already has a channel. A
  second channel is created and the caller's user record is repointed to it.

## Model

| member | source | states |
|---|---|---|
| `Wrappers.Option.GetOr` | controllers/video.controllers.js:103-112 | the `""` fallback of an optional result: the value when present, the fallback otherwise |
| `Text.Trim` | controllers/video.controllers.js:38-39 | the result has no space at either end, and it is empty exactly when the input is all spaces |
| `Text.TrimAddsNothing` | controllers/video.controllers.js:55 | trimming adds no character: a character absent from the input is absent from the result |
| `Text.TrimPadded` | controllers/channel.controllers.js:40-41 | trimming a trimmed string wrapped in spaces gives that string back |
| `Text.TrimIdempotent` | controllers/video.controllers.js:50 | trimming twice is trimming once |
| `Text.Split` | controllers/video.controllers.js:10 | `split` always gives at least one piece, and no piece holds the separator; a string without the separator is its own only piece |
| `Text.JoinSplit` | controllers/video.controllers.js:10 | joining the pieces of a split with the separator gives the string back |
| `Text.SplitAtSeparator` | controllers/video.controllers.js:53-54 | splitting `a + sep + b` gives the pieces of `a` followed by the pieces of `b` |
| `Text.SplitJoin` | controllers/video.controllers.js:12 | splitting a join of separator-free pieces gives the pieces back |
| `PublicId.GetPublicIdFromUrl` | controllers/video.controllers.js:9-14 | the public id holds no `.` |
| `PublicId.PublicIdOfLayout` | controllers/video.controllers.js:9-14 | for any URL laid out as directory, name and extension, the public id is the name |
| `PublicId.LastSegment` | controllers/video.controllers.js:10-11 | the last `/`-piece of a directory followed by a file name is the file name |
| `PublicId.FirstPiece` | controllers/video.controllers.js:12 | the first `.`-piece of a name followed by an extension is the name |
| `PublicId.PublicIdLocated` | controllers/video.controllers.js:9-14 | the public id is the stretch of the URL right after its last `/`, ending at the first `.` after it or at the end |
| `PublicId.PublicIdHasNoSeparators` | controllers/video.controllers.js:10-13 | the public id contains neither `/` nor `.` |
| `PublicId.PublicIdIdempotent` | controllers/video.controllers.js:10-13 | taking the public id of a public id changes nothing |
| `PublicId.PublicIdOfVideoUrl` | controllers/video.controllers.js:9-14 | a media-host video URL ending in `/videos/clip01.mp4` has public id `clip01` |
| `Tags.Take` | controllers/video.controllers.js:50 | `slice(0, n)` gives the first `min(n, length)` elements |
| `Tags.TrimEach` | controllers/video.controllers.js:55 | `map(trim)` keeps the length, and each entry is the trimmed input entry |
| `Tags.DropEmpty` | controllers/video.controllers.js:56 | `filter(Boolean)` keeps only non-empty entries, each taken from the input, keeps every non-empty input entry, and never lengthens the list |
| `Tags.DropEmptyConcat` | controllers/video.controllers.js:56 | the filter keeps order: it distributes over concatenation |
| `Tags.NormalizeTags` | controllers/video.controllers.js:45-59 | at most two tags; an absent field or one of another type gives no tags |
| `Tags.ArrayTags` | controllers/video.controllers.js:48-50 | array form: the first `min(2, n)` entries, each trimmed; an entry is `""` exactly when its input entry is all spaces |
| `Tags.TextTagsWellFormed` | controllers/video.controllers.js:51-57 | string form: every tag is non-empty, holds no comma and has no space at either end |
| `Tags.TextTagsSinglePiece` | controllers/video.controllers.js:53-57 | string form without a comma: its trimmed text is the one tag, unless it is blank |
| `Tags.TextTagsLeadingPiece` | controllers/video.controllers.js:53-57 | string form: a blank first piece is skipped; any other becomes the first tag ahead of the tags of the rest, cut to two, so tags keep input order |
| `Tags.FirstTwoPiecesWin` | controllers/video.controllers.js:51-57 | string form with two non-blank leading pieces (as in `"dogs, green, blue"`): exactly those two, trimmed |
| `Tags.ArrayFirstTwo` | controllers/video.controllers.js:48-50 | array form with at least two entries (as in `["a ", " b", "c"]`): exactly the first two, trimmed |
| `Tags.ArrayKeepsBlank` | controllers/video.controllers.js:48-50 | array form `["  ", "x"]` gives `["", "x"]`: the blank entry is not dropped |
| `Entities.Truthy` | controllers/channel.controllers.js:142-159 | `undefined` and `""` are falsy; every other string, a blank one included, is truthy |
| `Entities.ApplyChannelUpdate` | controllers/channel.controllers.js:187-191 | `$set` overwrites the fields the update carries and keeps the others, the owner and the video list among them |
| `Entities.EmptyChannelUpdate` | controllers/channel.controllers.js:140 | an empty `$set` leaves the channel unchanged |
| `Entities.ChannelUpdateIdempotent` | controllers/channel.controllers.js:187-191 | applying the same `$set` twice is applying it once |
| `Entities.ApplyUserUpdate` | controllers/channel.controllers.js:194-198 | the user `$set` of the edit handler changes at most the channel avatar |
| `Database.NameTaken` | controllers/channel.controllers.js:57-61 | `findOne({ channelName })` finds a document when some stored channel carries that exact name, and none in an empty collection |
| `Database.NameTakenAfterInsert` | controllers/channel.controllers.js:97-103 | after a channel is stored under a new id, a name is taken exactly when it is that channel's name or was taken before |
| `Database.MarkChannelCreated` | controllers/channel.controllers.js:105-112 | the owner gets `isChannelCreated = true` and `channel` = the new id; every other user is unchanged; a missing owner stays missing |
| `Database.UpdateUser` | controllers/channel.controllers.js:194-198 | only the user with that id is updated; every other user is unchanged |
| `Database.AppendVideo` | controllers/video.controllers.js:116-120 | `$push` adds the id at the end of that channel's list and changes nothing else; a missing channel leaves the map as it was |
| `Database.ListsAfterAppend` | controllers/video.controllers.js:116-120 | pushing a stored, unlisted video onto its own channel keeps the video lists valid |
| `Database.ListsAfterInsert` | controllers/video.controllers.js:105-114 | inserting a video under a new id keeps the lists valid, and no channel lists the new id |
| `Database.Db.InsertChannel` | controllers/channel.controllers.js:97-103 | the channel is stored under a fresh, non-empty id and nothing else changes |
| `Database.Db.SetChannel` | controllers/channel.controllers.js:187-191 | only that channel is overwritten |
| `Database.Db.MarkCreated` | controllers/channel.controllers.js:105-112 | the users map becomes `MarkChannelCreated` of the old one, and the invariant is kept |
| `Database.Db.SetUser` | controllers/channel.controllers.js:194-198 | the users map becomes `UpdateUser` of the old one, and the invariant is kept |
| `Database.Db.InsertVideo` | controllers/video.controllers.js:105-114 | the video is stored under a fresh, non-empty id that no channel lists; users and channels are unchanged |
| `Database.Db.PushVideo` | controllers/video.controllers.js:116-120 | the channels map becomes `AppendVideo` of the old one, and the invariant is kept |
| `Media.StepOf` | controllers/channel.controllers.js:67-80 | an optional image upload is skipped exactly when no file is sent, and fails exactly when the host returns no URL |
| `Media.RequestsFor` | controllers/channel.controllers.js:67-76 | a sent file becomes exactly one request to its folder; a missing one becomes none |
| `Media.MediaStore.UploadImage` | controllers/channel.controllers.js:69-77 | one request is logged, and the answer is the host's answer to it |
| `Media.MediaStore.UploadVideo` | controllers/video.controllers.js:77-126 | one request to the `videos` folder is logged, and the answer is the host's answer to it |
| `Media.MediaStore.UploadOptional` | controllers/channel.controllers.js:162-172 | uploads only when a file is sent, and its outcome is `StepOf` |
| `ChannelControllers.GetCurrentChannel` | controllers/channel.controllers.js:9-35 | 400 for an empty or invalid id, 404 for an unknown one; 200 with the stored channel exactly when the id is non-empty, valid and stored |
| `ChannelControllers.ImageRequests` | controllers/channel.controllers.js:66-95 | at most two uploads, the avatar's first; one per sent avatar, plus one per sent banner unless the avatar upload failed; a sent banner's upload comes last; none without files |
| `ChannelControllers.UploadImages` | controllers/channel.controllers.js:66-95 | the avatar outcome is `StepOf` for the avatar; unless it failed, the banner outcome is `StepOf` for the banner; the log grows by `ImageRequests` |
| `ChannelControllers.CreateChannel` | controllers/channel.controllers.js:38-121 | in order: 400 without a caller, 400 for a blank trimmed name or description, 400 for a taken trimmed name, each with store and upload log unchanged; then the uploads; 500 with the store unchanged if one fails; else 201 with a channel under a fresh id, owned by the caller, with the trimmed name and description and `""` for a missing image, and the caller marked as its owner |
| `ChannelControllers.FinishCreate` | controllers/channel.controllers.js:62-114 | after the checks: the uploads; 500 with the store unchanged on a failed upload; else the new channel inserted, the owner updated, videos unchanged, 201 |
| `ChannelControllers.EditUpdates` | controllers/channel.controllers.js:139-184 | the `updates` object carries a name or description exactly when that field was sent non-empty, and the uploaded image URLs |
| `ChannelControllers.EditChannel` | controllers/channel.controllers.js:124-211 | in order: 403 without a caller or channel flag, 404 when the caller's channel is not stored, 400 for a name that trims to empty, 400 exactly when a changed name is taken; a rejection changes neither store nor upload log; then uploads; 500 with the store unchanged on failure; else 200 with the channel `$set` by `EditUpdates`, and the caller's user record given the new avatar only |
| `ChannelControllers.FinishEdit` | controllers/channel.controllers.js:161-204 | after the checks: the uploads; 500 with the store unchanged on a failed upload; else the channel `$set`, the user `$set` with the avatar URL, videos unchanged, 200 with the updated channel |
| `ChannelControllers.EditedChannel` | controllers/channel.controllers.js:140-191 | an edit keeps owner, video list and every field not sent; a sent name or description is stored trimmed; an uploaded image replaces the old URL |
| `ChannelControllers.BlankDescriptionStoredEmpty` | controllers/channel.controllers.js:157-159 | a non-empty description made only of spaces is stored as `""` |
| `ChannelControllers.CurrentNameAccepted` | controllers/channel.controllers.js:142-155 | resending the channel's current name passes the checks although that name is taken, by the channel itself |
| `ChannelControllers.CreatedNameBlocksCreate` | controllers/channel.controllers.js:57-61 | once a channel holds a name, a create request whose name trims to it is refused |
| `ChannelControllers.CreatedNameBlocksRename` | controllers/channel.controllers.js:147-153 | once a channel holds a name, renaming another channel to it is refused |
| `VideoControllers.TrimField` | controllers/video.controllers.js:38-39 | `field?.trim()` is present exactly when the field is, trimmed, and truthy exactly when the field is not all spaces |
| `VideoControllers.FailureMessage` | controllers/video.controllers.js:95-99 | the 500 message is the host's message when it has one, the fixed upload-failure text otherwise, and never empty |
| `VideoControllers.UploadVideo` | controllers/video.controllers.js:17-133 | in order: 400 without a file, 400 for a type outside the four video types, 400 without uploader, 400 without channel, 400 for a missing or blank title or description, each with store and upload log unchanged; then one upload; 500 with the store unchanged on failure; else 201 with a video under a fresh id, `""` for a missing thumbnail or duration, the normalised tags, its id appended to the end of its channel's list, users unchanged |
| `VideoControllers.FinishUpload` | controllers/video.controllers.js:75-123 | after the checks: one upload; 500 on failure; else the video inserted, its id pushed onto the channel, users unchanged, 201 |
| `VideoControllers.GetCurrentVideo` | controllers/video.controllers.js:154-179 | 400 for an invalid id, 404 for an unknown one; 200 with the stored video exactly when the id is valid and stored |
| `Scenarios.CreateThenFetch` | controllers/channel.controllers.js:9-121 | a channel just created is returned by the lookup for its id |
| `Scenarios.CreateTwice` | controllers/channel.controllers.js:38-121 | after a successful create, a second create with the same trimmed name is refused as a duplicate |
| `Scenarios.UploadThenFetch` | controllers/video.controllers.js:17-179 | a video just uploaded is returned by the lookup for its id, and its channel's list grew by exactly that id at the end |

## Left out

- `getAllVideos` is left out. It is a store query with `sort` by creation time and `populate`, with no local logic.
- The `populate` of the channel's videos in `getCurrentChannel` and of the channel in `getCurrentVideo` is left out. The model returns the stored record.
- Store failures are left out: the generic 500 replies of the `catch` blocks when the database throws. Only upload failures are modelled. In `createChannel` and `editChannel` such a failure reaches the `catch` block; in `uploadVideo` it is thrown inside the upload callback, where nothing catches it and no reply is sent.
- Crashes are left out: a missing `req.body.channelName` or `description` in `createChannel`, a missing `req.user` in `uploadVideo`, and request fields of unexpected types. Request fields are assumed to be strings or absent.
- The exact reply message texts are left out. Each distinct message is a `Reason` case. The one exception is the fixed upload-failure text, which is kept.
- The timing of the upload callback in `uploadVideo` is left out, and so is the outer `try` not catching errors thrown inside it.
- Concurrency is left out. In particular, the non-atomic check-then-insert of channel names is not modelled: requests run one at a time.
- Object-id format and casting are left out. Ids are strings, and fresh ids are made by the store.
- Media-host internals are left out: streaming, the eager thumbnail options, and `resource_type`. The host's answer is a fixed function of folder and bytes, so the same bytes sent twice to one folder get the same answer.
- `result.duration` is a number in the source; here it is an optional string.
- The user schema, `models/user.models.js` and the other model files are not part of this model; records carry only the fields the handlers touch.
- The server bootstrap (`index.js`) and the route wiring are left out. The video routes import `deleteVideo` and `editVideo`, which the controller does not define, so they are not modelled.
