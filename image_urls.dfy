/** The two helpers that turn a product's `Foto` column into a displayable URL. */
module ImageUrls {
  import opened Models
  import opened Text

  /** The two foreign URL builders the helpers call: the image host's secure (https)
      URL for a public id, and the web application's `Url.Content` for an app-relative path. */
  datatype UrlBuilders = UrlBuilders(secureUrl: string -> string, content: string -> string)

  /** App-relative path of the local placeholder used by `ResolverUrlFoto`. */
  const NoImagePath: string := "~/img/no-image.png"

  /** Placeholder returned as-is by `ObtenerUrlImagen`. */
  const DefaultImagePath: string := "/path/to/default/image.jpg"

  /** Already an absolute URL: starts with "http" in any letter case. */
  predicate IsAbsoluteUrl(foto: string) {
    StartsWithIgnoreCase(foto, "http")
  }

  /** Helper used by `Buscar`: blank values get the local placeholder, absolute URLs are
      kept, anything else is a public id for the image host. An absolute URL is never
      blank, so every "http…" value, in any letter case, comes back unchanged. */
  function ResolverUrlFoto(foto: Option<string>, urls: UrlBuilders): (r: string)
    ensures IsNullOrWhiteSpace(foto) ==> r == urls.content(NoImagePath)
    ensures foto.Some? && IsAbsoluteUrl(foto.value) ==> r == foto.value
  {
    assert foto.Some? && IsAbsoluteUrl(foto.value) ==> !IsWhiteSpace(foto.value[0]) by {
      if foto.Some? && IsAbsoluteUrl(foto.value) {
        assert AsciiUpper(foto.value[0]) == 'H';
      }
    }
    if IsNullOrWhiteSpace(foto) then urls.content(NoImagePath)
    else if IsAbsoluteUrl(foto.value) then foto.value
    else urls.secureUrl(foto.value)
  }

  /** Helper used by `StockGestion`: null or empty values get the default path, anything
      else is handed to the image host. */
  function ObtenerUrlImagen(publicId: Option<string>, urls: UrlBuilders): string {
    if IsNullOrEmpty(publicId) then DefaultImagePath
    else urls.secureUrl(publicId.value)
  }

  /** Which of the two helpers an action applies to each product. */
  datatype FotoRule = ResolverRule | ObtenerRule

  function ResolveFoto(rule: FotoRule, foto: Option<string>, urls: UrlBuilders): string {
    match rule
    case ResolverRule => ResolverUrlFoto(foto, urls)
    case ObtenerRule => ObtenerUrlImagen(foto, urls)
  }

  /** The image host is only ever asked for public ids: values that are neither blank nor
      absolute URLs. */
  lemma {:induction false} ResolverAsksHostOnlyForIds(foto: Option<string>, urls: UrlBuilders)
    requires ResolverUrlFoto(foto, urls) != urls.content(NoImagePath)
    requires ResolverUrlFoto(foto, urls) != foto.value
    ensures foto.Some? && !IsNullOrWhiteSpace(foto) && !IsAbsoluteUrl(foto.value)
    ensures ResolverUrlFoto(foto, urls) == urls.secureUrl(foto.value)
  {
  }

  /** When the image host returns absolute URLs (its secure URLs start with "https"),
      resolving an already resolved non-blank value changes nothing. */
  lemma {:induction false} ResolverIdempotent(foto: Option<string>, urls: UrlBuilders)
    requires forall id :: IsAbsoluteUrl(urls.secureUrl(id))
    requires !IsNullOrWhiteSpace(foto)
    ensures ResolverUrlFoto(Some(ResolverUrlFoto(foto, urls)), urls) == ResolverUrlFoto(foto, urls)
  {
    var r := ResolverUrlFoto(foto, urls);
    assert IsAbsoluteUrl(r);
  }

  /** The two helpers agree on public ids: non-blank values that are not absolute URLs. */
  lemma HelpersAgreeOnPublicIds(foto: Option<string>, urls: UrlBuilders)
    requires !IsNullOrWhiteSpace(foto) && !IsAbsoluteUrl(foto.value)
    ensures ResolverUrlFoto(foto, urls) == ObtenerUrlImagen(foto, urls) == urls.secureUrl(foto.value)
  {
  }

  /** They disagree on a value made only of white space: `ResolverUrlFoto` gives the local
      placeholder, `ObtenerUrlImagen` hands the blanks to the image host. */
  lemma HelpersDivergeOnBlank(w: string, urls: UrlBuilders)
    requires w != [] && forall i :: 0 <= i < |w| ==> IsWhiteSpace(w[i])
    ensures ResolverUrlFoto(Some(w), urls) == urls.content(NoImagePath)
    ensures ObtenerUrlImagen(Some(w), urls) == urls.secureUrl(w)
  {
  }

  /** They disagree on an absolute URL: `ResolverUrlFoto` keeps it (its second ensures),
      while `ObtenerUrlImagen` hands it to the image host as if it were a public id. */
  lemma HelpersDivergeOnAbsoluteUrl(u: string, urls: UrlBuilders)
    requires IsAbsoluteUrl(u)
    ensures ObtenerUrlImagen(Some(u), urls) == urls.secureUrl(u)
  {
  }

  /** When the image host returns absolute URLs, the default path on the page means the
      product had no photo: `ObtenerUrlImagen` gives it exactly for null or empty input. */
  lemma {:induction false} ObtenerDefaultOnlyForEmpty(publicId: Option<string>, urls: UrlBuilders)
    requires forall id :: IsAbsoluteUrl(urls.secureUrl(id))
    ensures ObtenerUrlImagen(publicId, urls) == DefaultImagePath <==> IsNullOrEmpty(publicId)
  {
    if !IsNullOrEmpty(publicId) {
      assert IsAbsoluteUrl(urls.secureUrl(publicId.value));
      assert DefaultImagePath[0] == '/';
      assert !IsAbsoluteUrl(DefaultImagePath);
    }
  }
}
