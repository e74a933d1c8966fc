/** The kinds of failure the adapter reports. The Go code wraps every error
    uniformly; here each kind is a constructor, and message text is left out. */
module FtpErrors {
  import opened FileInfos

  datatype Error =
    | ListError(path: string)                        // the listing of `path` failed
    | NotFound(base: string, siblings: seq<Entry>)   // no entry named `base` among `siblings`
    | RetrError(path: string)                        // the transfer of `path` could not start
    | StreamError                                    // the data stream failed while reading
    | CloseError                                     // the data stream failed to close
}
