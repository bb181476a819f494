/**
 * The server's asset routes (`/api/assets`): image and video listings filtered
 * by file extension, the file-serving 404 rule and the logo choice. The
 * directory listing and the file-system test `onDisk` are parameters.
 */
module AssetsRoutes {
  import opened JsStrings
  import opened ServerEnvelope

  const ImageExtensions: seq<string> := ["jpg", "jpeg", "png", "gif", "svg", "webp"]
  const VideoExtensions: seq<string> := ["mp4", "webm", "ogg", "avi", "mov"]

  const ImagesUrl := "/api/assets/images/"
  const VideosUrl := "/api/assets/videos/"

  /**
   * `/\.(e1|e2|...)$/i.test(name)`: the name ends in a dot and one of `exts`,
   * ASCII letters compared without case.
   */
  predicate HasExtension(name: string, exts: seq<string>) {
    exists k :: 0 <= k < |exts| && EndsWith(LowerAsciiString(name), "." + exts[k])
  }

  /** A file named `base.ext` with `ext` a listed (lower-case) extension matches, whatever `base` is. */
  lemma ListedExtensionMatches(base: string, ext: string, exts: seq<string>)
    requires ext in exts && LowerAsciiString(ext) == ext
    ensures HasExtension(base + "." + ext, exts)
  {
    var name := base + "." + ext;
    var lower := LowerAsciiString(name);
    assert lower[|lower| - |"." + ext|..] == "." + ext by {
      forall k | 0 <= k < |ext| + 1 ensures lower[|base| + k] == ("." + ext)[k] {
        assert name[|base| + k] == ("." + ext)[k];
        if k > 0 {
          assert LowerAsciiString(ext)[k - 1] == LowerAscii(ext[k - 1]);
        }
      }
    }
    var k :| 0 <= k < |exts| && exts[k] == ext;
    assert EndsWith(lower, "." + exts[k]);
  }

  /** `files.filter(file => pattern.test(file))` */
  function FilterByExtension(files: seq<string>, exts: seq<string>): (kept: seq<string>)
    ensures |kept| <= |files|
    ensures forall f :: f in kept <==> f in files && HasExtension(f, exts)
  {
    if files == [] then []
    else
      var rest := FilterByExtension(files[1..], exts);
      assert forall f :: f in files <==> f == files[0] || f in files[1..];
      if HasExtension(files[0], exts) then [files[0]] + rest else rest
  }

  /** The filter works file by file, so the kept names stay in listing order. */
  lemma {:induction false} FilterByExtensionAppend(a: seq<string>, b: seq<string>, exts: seq<string>)
    ensures FilterByExtension(a + b, exts) == FilterByExtension(a, exts) + FilterByExtension(b, exts)
  {
    if a == [] {
      assert a + b == b;
    } else {
      var ab := a + b;
      assert ab[0] == a[0] && ab[1..] == a[1..] + b;
      FilterByExtensionAppend(a[1..], b, exts);
    }
  }

  /** One listing entry: `{ filename, url, path }`. */
  datatype Asset = Asset(filename: string, url: string, path: string)

  /** `path.join(dir, file)` for a plain file name. */
  function Join(dir: string, file: string): string {
    dir + "/" + file
  }

  /** `.map(file => ({ filename: file, url: urlPrefix + file, path: path.join(dir, file) }))` */
  function ToAssets(files: seq<string>, dir: string, urlPrefix: string): (assets: seq<Asset>)
    ensures |assets| == |files|
    ensures forall i :: 0 <= i < |files| ==> assets[i] == Asset(files[i], urlPrefix + files[i], Join(dir, files[i]))
  {
    if files == [] then [] else [Asset(files[0], urlPrefix + files[0], Join(dir, files[0]))] + ToAssets(files[1..], dir, urlPrefix)
  }

  /**
   * A listing route: the matching files in listing order, each with its URL and
   * path; a missing directory is still a success, with no entries and a message.
   */
  function ListAssets(listing: Option<seq<string>>, dir: string, exts: seq<string>, urlPrefix: string,
                      missing: string): (r: Response<seq<Asset>>)
    ensures r.status == 200 && r.success && r.data.Some?
    ensures listing.None? ==> r == Response(200, true, Some(missing), Some([]))
    ensures listing.Some? ==>
      var kept := FilterByExtension(listing.value, exts);
      && r.message.None?
      && |r.data.value| == |kept|
      && forall i :: 0 <= i < |kept| ==> r.data.value[i] == Asset(kept[i], urlPrefix + kept[i], Join(dir, kept[i]))
  {
    if listing.None? then Response(200, true, Some(missing), Some([]))
    else Ok(ToAssets(FilterByExtension(listing.value, exts), dir, urlPrefix))
  }

  /** GET `/images` */
  function ListImages(listing: Option<seq<string>>, imagesDir: string): (r: Response<seq<Asset>>)
    ensures listing.None? ==> r == Response(200, true, Some("Pasta de imagens não encontrada"), Some([]))
    ensures r.data.Some? && forall a :: a in r.data.value ==>
      listing.Some? && a.filename in listing.value && HasExtension(a.filename, ImageExtensions)
      && a.url == ImagesUrl + a.filename && a.path == Join(imagesDir, a.filename)
  {
    ListAssets(listing, imagesDir, ImageExtensions, ImagesUrl, "Pasta de imagens não encontrada")
  }

  /** GET `/videos` */
  function ListVideos(listing: Option<seq<string>>, videosDir: string): (r: Response<seq<Asset>>)
    ensures listing.None? ==> r == Response(200, true, Some("Pasta de vídeos não encontrada"), Some([]))
    ensures r.data.Some? && forall a :: a in r.data.value ==>
      listing.Some? && a.filename in listing.value && HasExtension(a.filename, VideoExtensions)
      && a.url == VideosUrl + a.filename && a.path == Join(videosDir, a.filename)
  {
    ListAssets(listing, videosDir, VideoExtensions, VideosUrl, "Pasta de vídeos não encontrada")
  }

  /** Every listed file that matches is in the listing answer. */
  lemma ListingIsComplete(listing: seq<string>, dir: string, exts: seq<string>, urlPrefix: string, f: string)
    requires f in listing && HasExtension(f, exts)
    ensures Asset(f, urlPrefix + f, Join(dir, f)) in ListAssets(Some(listing), dir, exts, urlPrefix, "").data.value
  {
    var kept := FilterByExtension(listing, exts);
    var i :| 0 <= i < |kept| && kept[i] == f;
    assert ListAssets(Some(listing), dir, exts, urlPrefix, "").data.value[i] == Asset(f, urlPrefix + f, Join(dir, f));
  }

  /** What a file route answers: the file itself, or a failure envelope. */
  datatype Served = SendFile(path: string) | NotServed(status: nat, message: string)

  /** `fs.existsSync(path.join(dir, filename))` sends the file, otherwise 404 */
  function ServeFile(onDisk: string -> bool, dir: string, filename: string, notFound: string): (r: Served)
    ensures onDisk(Join(dir, filename)) <==> r == SendFile(Join(dir, filename))
    ensures !onDisk(Join(dir, filename)) ==> r == NotServed(404, notFound)
  {
    if onDisk(Join(dir, filename)) then SendFile(Join(dir, filename)) else NotServed(404, notFound)
  }

  /** GET `/images/:filename` */
  function ServeImage(onDisk: string -> bool, imagesDir: string, filename: string): (r: Served)
    ensures r.SendFile? <==> onDisk(Join(imagesDir, filename))
    ensures r.SendFile? ==> r.path == Join(imagesDir, filename)
    ensures r.NotServed? ==> r == NotServed(404, "Imagem não encontrada")
  {
    ServeFile(onDisk, imagesDir, filename, "Imagem não encontrada")
  }

  /** GET `/videos/:filename` */
  function ServeVideo(onDisk: string -> bool, videosDir: string, filename: string): (r: Served)
    ensures r.SendFile? <==> onDisk(Join(videosDir, filename))
    ensures r.SendFile? ==> r.path == Join(videosDir, filename)
    ensures r.NotServed? ==> r == NotServed(404, "Vídeo não encontrado")
  {
    ServeFile(onDisk, videosDir, filename, "Vídeo não encontrado")
  }

  /** GET `/logo`: `logo.png` when it exists, else `logo.svg`, else 404. */
  function ServeLogo(onDisk: string -> bool, imagesDir: string): (r: Served)
    ensures onDisk(Join(imagesDir, "logo.png")) ==> r == SendFile(Join(imagesDir, "logo.png"))
    ensures !onDisk(Join(imagesDir, "logo.png")) && onDisk(Join(imagesDir, "logo.svg")) ==>
      r == SendFile(Join(imagesDir, "logo.svg"))
    ensures !onDisk(Join(imagesDir, "logo.png")) && !onDisk(Join(imagesDir, "logo.svg")) ==>
      r == NotServed(404, "Logo da escola não encontrado")
  {
    if onDisk(Join(imagesDir, "logo.png")) then SendFile(Join(imagesDir, "logo.png"))
    else if onDisk(Join(imagesDir, "logo.svg")) then SendFile(Join(imagesDir, "logo.svg"))
    else NotServed(404, "Logo da escola não encontrado")
  }

  /**
   * Every image the listing names is served by the file route under its own name,
   * from the path the listing reports, as long as the file still exists.
   */
  lemma ListedImagesAreServed(listing: seq<string>, imagesDir: string, onDisk: string -> bool, a: Asset)
    requires a in ListImages(Some(listing), imagesDir).data.value
    requires onDisk(a.path)
    ensures ServeImage(onDisk, imagesDir, a.filename) == SendFile(a.path)
  {
  }

  /** The pattern ignores ASCII case: a name and its lower-cased form match the same extensions. */
  lemma ExtensionIgnoresCase(name: string, exts: seq<string>)
    ensures HasExtension(LowerAsciiString(name), exts) <==> HasExtension(name, exts)
  {
    var lower := LowerAsciiString(name);
    assert LowerAsciiString(lower) == lower by {
      forall k | 0 <= k < |lower| ensures LowerAsciiString(lower)[k] == lower[k] {
        assert lower[k] == LowerAscii(name[k]);
      }
    }
  }
}
