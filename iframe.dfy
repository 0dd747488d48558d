/** The iframe widget's frame: its size, with pixel units added to unitless
    sizes, the URL it loads (a bare program ID expanded to the program's embed
    URL), the settings handed to the page and the sandbox it runs in. */
module Iframe {
  import opened Common
  import opened EmbeddedProgram

  /** The unit rule: a size that ends in neither "%" nor "px" gets "px". */
  function PxSuffix(s: string): (r: string)
    ensures EndsWith(s, "%") || EndsWith(s, "px") ==> r == s
    ensures !(EndsWith(s, "%") || EndsWith(s, "px")) ==> r == s + "px"
  {
    if !EndsWith(s, "%") && !EndsWith(s, "px") then s + "px" else s
  }

  /** Every size comes out with a unit. */
  lemma PxSuffixHasUnit(s: string)
    ensures EndsWith(PxSuffix(s), "%") || EndsWith(PxSuffix(s), "px")
  {
    var r := PxSuffix(s);
    if r != s {
      assert r[|r| - 2..] == "px";
    }
  }

  /** Applying the unit rule twice is applying it once. */
  lemma PxSuffixIdempotent(s: string)
    ensures PxSuffix(PxSuffix(s)) == PxSuffix(s)
  {
    PxSuffixHasUnit(s);
  }

  const ProgramUrlPrefix := "https://www.khanacademy.org/computer-programming/program/"
  const ProgramUrlSuffix := "/embedded?buttons=no&embed=yes&editor=no&author=no"

  /** A URL that does not start with "http" is taken for a program ID; an empty
      or missing URL, or one that is not a string, is left alone. So a web
      address is never a program ID, and a non-empty string that does not
      start with "h" always is. */
  function IsProgramId(url: Value): (r: bool)
    ensures r ==> url.Str? && url.s != ""
    ensures url.Str? && IsPrefix("http", url.s) ==> !r
    ensures url.Str? && url.s != "" && url.s[0] != 'h' ==> r
  {
    url.Str? && url.s != "" && !IsPrefix("http", url.s)
  }

  datatype Props = Props(width: Value, height: Value, url: Value, settings: Option<seq<Value>>, allowFullScreen: bool)

  /** The rendered frame. */
  datatype Frame = Frame(sandbox: string, width: string, height: string, src: Url, allowFullScreen: bool)

  /** The size step of `render`: each size of the style, as a string, gets the
      unit rule. */
  method StyleSizes(style: seq<string>) returns (sizes: seq<string>)
    ensures |sizes| == |style|
    ensures forall k :: 0 <= k < |style| ==> sizes[k] == PxSuffix(style[k])
  {
    sizes := style;
    var i := 0;
    while i < |style|
      invariant 0 <= i <= |style| && |sizes| == |style|
      invariant forall k :: 0 <= k < i ==> sizes[k] == PxSuffix(style[k])
      invariant forall k :: i <= k < |style| ==> sizes[k] == style[k]
    {
      sizes := sizes[i := PxSuffix(sizes[i])];
      i := i + 1;
    }
  }

  /** The URL step of `render`: a program ID becomes the program's embed URL
      with the width, height and page origin as query parameters; any other
      URL is kept. */
  method ProgramUrl(props: Props, origin: string) returns (url: Url)
    ensures IsProgramId(props.url) ==>
              url == Url(Str(ProgramUrlPrefix + props.url.s + ProgramUrlSuffix),
                         [("width", props.width), ("height", props.height), ("origin", Str(origin))])
    ensures !IsProgramId(props.url) ==> url == Url(props.url, [])
  {
    url := Url(props.url, []);
    var isProgramId := IsProgramId(props.url);
    if isProgramId {
      url := Url(Str(ProgramUrlPrefix + props.url.s + ProgramUrlSuffix), []);
      url := UpdateQuery(url, "width", props.width);
      url := UpdateQuery(url, "height", props.height);
      url := UpdateQuery(url, "origin", Str(origin));
    }
  }

  /** `render()`: the sized frame; a program ID is expanded to its embed URL
      and given the width, height and page origin as query parameters; a
      settings list adds the settings object, and a `null` or `undefined`
      entry in it makes the render throw; the sandbox always allows
      same-origin access, scripts and top-level navigation. */
  method Render(props: Props, origin: string) returns (r: Result<Frame, string>)
    ensures r.Err? <==> props.settings.Some? && HasNullishEntry(props.settings.value)
    ensures r.Ok? ==> r.value.width == PxSuffix(ToString(props.width)) &&
                      r.value.height == PxSuffix(ToString(props.height))
    ensures r.Ok? ==>
              var programQuery := if IsProgramId(props.url) then 3 else 0;
              |r.value.src.query| == programQuery + (if props.settings.Some? then 1 else 0) &&
              (props.settings.Some? ==>
                 r.value.src.query[programQuery] == ("settings", Obj(SettingsOf(props.settings.value))))
    ensures r.Ok? && IsProgramId(props.url) ==>
              r.value.src.base == Str(ProgramUrlPrefix + props.url.s + ProgramUrlSuffix) &&
              r.value.src.query[..3] == [("width", props.width), ("height", props.height), ("origin", Str(origin))]
    ensures r.Ok? && !IsProgramId(props.url) ==> r.value.src.base == props.url
    ensures r.Ok? ==> r.value.sandbox == "allow-same-origin allow-scripts allow-top-navigation"
    ensures r.Ok? ==> r.value.allowFullScreen == props.allowFullScreen
  {
    var width := ToString(props.width);
    var height := ToString(props.height);
    var sizes := StyleSizes([width, height]);
    var url := ProgramUrl(props, origin);
    var withSettings := AddSettings(url, props.settings);
    if withSettings.Err? {
      return Err(withSettings.error);
    }
    var sandboxProperties := "allow-same-origin allow-scripts allow-top-navigation";
    r := Ok(Frame(sandboxProperties, sizes[0], sizes[1], withSettings.value, props.allowFullScreen));
  }
}
