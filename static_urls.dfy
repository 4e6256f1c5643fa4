/** The public URL of a stored image: the request's base URL without trailing slashes, the
    static folder, the image name and its extension; no URL when the name is empty or missing.
    backend/app/api/routes/projects.py and backend/app/api/routes/ecopark.py each define
    build_flat_image_url this way, with their own folder and extension. */
module StaticUrls {
  import opened Wrappers
  import opened StrUtil

  predicate HasName(name: Option<string>) {
    name.Some? && name.value != ""
  }

  function ImageUrl(base: string, folder: string, name: Option<string>, ext: string): (r: Option<string>)
    ensures r.Some? <==> HasName(name)
    ensures r.Some? ==> r.value == RStripSlash(base) + folder + name.value + ext
  {
    if !HasName(name) then None else Some(RStripSlash(base) + folder + name.value + ext)
  }

  /** Different image names never share a URL. */
  lemma {:induction false} ImageUrlInjective(base: string, folder: string, ext: string, a: Option<string>, b: Option<string>)
    requires ImageUrl(base, folder, a, ext).Some? && ImageUrl(base, folder, a, ext) == ImageUrl(base, folder, b, ext)
    ensures a == b
  {
    var prefix := RStripSlash(base) + folder;
    var u := ImageUrl(base, folder, a, ext).value;
    assert u == prefix + a.value + ext == prefix + b.value + ext;
    assert |a.value| == |b.value|;
    assert a.value == u[|prefix|..|prefix| + |a.value|];
    assert b.value == u[|prefix|..|prefix| + |b.value|];
  }

  /** A trailing slash on the base URL makes no difference. */
  lemma BaseSlashIgnored(base: string, folder: string, name: Option<string>, ext: string)
    ensures ImageUrl(base + "/", folder, name, ext) == ImageUrl(base, folder, name, ext)
  {
    assert (base + "/")[..|base + "/"| - 1] == base;
  }
}
