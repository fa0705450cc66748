/** The extension table that `getMimeType` and `readImageToBase64` both switch
    on: jpg and jpeg are JPEG, then png, gif and webp. */
module ImageFormats {
  import opened Wrappers

  datatype Format = Jpeg | Png | Gif | Webp

  /** The format named by an already lower-cased extension. */
  function FormatOf(ext: string): (r: Option<Format>)
    ensures r == Some(Jpeg) <==> ext == "jpg" || ext == "jpeg"
    ensures r == Some(Png) <==> ext == "png"
    ensures r == Some(Gif) <==> ext == "gif"
    ensures r == Some(Webp) <==> ext == "webp"
  {
    if ext == "jpg" || ext == "jpeg" then Some(Jpeg)
    else if ext == "png" then Some(Png)
    else if ext == "gif" then Some(Gif)
    else if ext == "webp" then Some(Webp)
    else None
  }

  function MimeOf(f: Format): (m: string)
    ensures ',' !in m && ';' !in m
  {
    match f
    case Jpeg => "image/jpeg"
    case Png => "image/png"
    case Gif => "image/gif"
    case Webp => "image/webp"
  }

  /** Distinct formats have distinct MIME types. */
  lemma MimeOfInjective(f: Format, g: Format)
    ensures MimeOf(f) == MimeOf(g) ==> f == g
  {
  }
}
