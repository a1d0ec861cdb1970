/**
 * The upload middleware's rules: the MIME allow-list of `imageFileFilter`,
 * the storage chosen by `getMulterForMode`, and the `MAX_FILE_SIZE` limit.
 */
module Upload {
  import opened Js

  const AllowedTypes: seq<string> := ["image/jpeg", "image/png", "image/webp", "image/gif"]
  const RejectMessage: string := "Only image files (jpeg, png, webp, gif) are allowed"
  const DefaultMaxFileSize: int := 5242880

  /** One invocation of the filter's callback `cb(error, accept)`. */
  datatype Callback = Callback(error: Option<string>, accept: Option<bool>)

  /** The callback invocations `imageFileFilter` makes for a file of type `mimetype`, in order. */
  function ImageFileFilter(mimetype: string): (calls: seq<Callback>)
    ensures |calls| == 1
    ensures calls[0] == Callback(None, Some(true)) <==> mimetype in AllowedTypes
    ensures calls[0].error.Some? <==> mimetype !in AllowedTypes
    ensures calls[0].error.Some? ==> calls[0] == Callback(Some(RejectMessage), None)
  {
    if mimetype !in AllowedTypes then [Callback(Some(RejectMessage), None)]
    else [Callback(None, Some(true))]
  }

  /** The four image types, and only they, are accepted. */
  lemma AcceptedTypes(mimetype: string)
    ensures ImageFileFilter(mimetype)[0].accept == Some(true) <==>
              mimetype == "image/jpeg" || mimetype == "image/png" || mimetype == "image/webp" || mimetype == "image/gif"
  {
  }

  /** The filter's decision is exact: "image/svg+xml" and "IMAGE/PNG" are refused. */
  lemma RefusedTypes()
    ensures ImageFileFilter("image/svg+xml") == [Callback(Some(RejectMessage), None)]
    ensures ImageFileFilter("IMAGE/PNG") == [Callback(Some(RejectMessage), None)]
  {
    assert "IMAGE/PNG"[0] != "image/png"[0];
  }

  datatype Storage = Disk | Memory

  /** The options passed to multer; `fileSize` is `None` when MAX_FILE_SIZE is NaN. */
  datatype MulterOptions = MulterOptions(storage: Storage, fileSize: Option<int>)

  /** `MAX_FILE_SIZE = Number(process.env.MAX_FILE_SIZE || 5_242_880)`. */
  function MaxFileSize(env: Option<string>): (r: Option<int>)
    ensures !Truthy(env) ==> r == Some(DefaultMaxFileSize)
    ensures Truthy(env) ==> r == NumberOf(env.value)
  {
    if Truthy(env) then NumberOf(env.value) else Some(DefaultMaxFileSize)
  }

  /** `getMulterForMode(mode)`: disk storage for "local", memory storage for any other mode. */
  function MulterForMode(mode: string, env: Option<string>): (o: MulterOptions)
    ensures o.storage == Disk <==> mode == "local"
    ensures o.fileSize == MaxFileSize(env)
  {
    MulterOptions(if mode == "local" then Disk else Memory, MaxFileSize(env))
  }

  /** Without MAX_FILE_SIZE, uploads are limited to 5 MiB. */
  lemma DefaultLimit(mode: string)
    ensures MulterForMode(mode, None).fileSize == Some(5 * 1024 * 1024)
    ensures MulterForMode(mode, Some("")).fileSize == Some(5 * 1024 * 1024)
  {
  }

  /** A decimal MAX_FILE_SIZE is used as the limit. */
  lemma {:induction false} ConfiguredLimit(d: string)
    requires d != [] && AllDigits(d)
    ensures MaxFileSize(Some(d)) == Some(DigitsValue(d))
  {
    NumberOfDigits([], d, []);
    assert [] + d + [] == d;
  }
}
