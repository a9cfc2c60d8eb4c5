/** The media host the controllers stream files to. Each upload is a request
    (a destination folder and the file's bytes); what the host answers is an
    arbitrary but fixed function of the request, and every request sent is
    recorded, so that "nothing was uploaded" can be stated. */
module Media {
  import opened Wrappers
  import opened Entities

  const AvatarFolder: string := "channel_avatar"
  const BannerFolder: string := "channel_banner"
  const VideoFolder: string := "videos"

  datatype UploadRequest = UploadRequest(folder: string, buffer: seq<bv8>)

  /** The answer to a video upload: an error with its (possibly empty)
      message, or the stored file's URL with the URL of the first derived
      thumbnail and the clip's duration, each of which may be missing. */
  datatype VideoUpload =
    | VideoRejected(message: string)
    | VideoStored(secureUrl: string, thumbnailUrl: Option<string>, duration: Option<string>)

  /** The outcome of an optional image upload: no file was sent, the host
      stored it at a URL, or the host failed. */
  datatype ImageStep = Skipped | Stored(url: string) | Failed
  {
    /** The URL the step produced, if any. */
    function Url(): (u: Option<string>)
      ensures u.Some? <==> this.Stored?
      ensures u.Some? ==> u.value == url
    {
      if Stored? then Some(url) else None
    }
  }

  /** The request an optional file turns into, if any. */
  function RequestsFor(file: Option<File>, folder: string): (reqs: seq<UploadRequest>)
    ensures |reqs| == if file.Some? then 1 else 0
    ensures file.Some? ==> reqs[0] == UploadRequest(folder, file.value.buffer)
  {
    if file.Some? then [UploadRequest(folder, file.value.buffer)] else []
  }

  /** What uploading an optional file to `folder` yields under `host`. */
  function StepOf(host: UploadRequest -> Option<string>, file: Option<File>, folder: string): (step: ImageStep)
    ensures step.Skipped? <==> file.None?
    ensures file.Some? ==>
              (step.Failed? <==> host(UploadRequest(folder, file.value.buffer)).None?) &&
              (step.Stored? ==> Some(step.url) == host(UploadRequest(folder, file.value.buffer)))
  {
    match file
    case None => Skipped
    case Some(f) =>
      match host(UploadRequest(folder, f.buffer))
      case None => Failed
      case Some(u) => Stored(u)
  }

  class MediaStore {
    const imageHost: UploadRequest -> Option<string>
    const videoHost: UploadRequest -> VideoUpload
    /** Every request sent so far, oldest first. */
    var sent: seq<UploadRequest>

    constructor (imageHost: UploadRequest -> Option<string>, videoHost: UploadRequest -> VideoUpload)
      ensures this.imageHost == imageHost && this.videoHost == videoHost
      ensures sent == []
    {
      this.imageHost := imageHost;
      this.videoHost := videoHost;
      sent := [];
    }

    /** Streams an image to `folder`; `None` when the host reports an error. */
    method UploadImage(folder: string, buffer: seq<bv8>) returns (url: Option<string>)
      modifies this`sent
      ensures sent == old(sent) + [UploadRequest(folder, buffer)]
      ensures url == imageHost(UploadRequest(folder, buffer))
    {
      var request := UploadRequest(folder, buffer);
      sent := sent + [request];
      url := imageHost(request);
    }

    /** Streams a video to the videos folder. */
    method UploadVideo(buffer: seq<bv8>) returns (result: VideoUpload)
      modifies this`sent
      ensures sent == old(sent) + [UploadRequest(VideoFolder, buffer)]
      ensures result == videoHost(UploadRequest(VideoFolder, buffer))
    {
      var request := UploadRequest(VideoFolder, buffer);
      sent := sent + [request];
      result := videoHost(request);
    }

    /** Uploads `file` to `folder` when there is one; sends nothing
        otherwise. */
    method UploadOptional(file: Option<File>, folder: string) returns (step: ImageStep)
      modifies this`sent
      ensures step == StepOf(imageHost, file, folder)
      ensures sent == old(sent) + RequestsFor(file, folder)
    {
      if file.None? {
        return Skipped;
      }
      var url := UploadImage(folder, file.value.buffer);
      step := if url.Some? then Stored(url.value) else Failed;
    }
  }
}
