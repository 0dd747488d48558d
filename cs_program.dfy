/** The CS program widget's frame: the program's embed URL with its editor and
    button flags, the frame's height and centring, the program settings and
    the sandbox. Grading and message handling are shared with the iframe
    widget (module EmbeddedProgram). */
module CsProgram {
  import opened Common
  import opened EmbeddedProgram

  /** The path of a program's embed page. */
  function ProgramPath(programId: string): string {
    "/computer-programming/program/" + programId + "/embedded?embed=yes&author=no"
  }

  /** `getUrlFromProgramID`: inside a native app (a `file:` page) the path is
      put on the public site; otherwise it is made absolute against the current
      page, by a helper not part of this model. */
  function UrlFromProgramId(programId: string, fileProtocol: bool, toAbsoluteUrl: string -> string): (r: string)
    ensures fileProtocol ==> r == "https://khanacademy.org" + ProgramPath(programId)
    ensures !fileProtocol ==> r == toAbsoluteUrl(ProgramPath(programId))
  {
    if fileProtocol then "https://khanacademy.org" + ProgramPath(programId) else toAbsoluteUrl(ProgramPath(programId))
  }

  datatype Props = Props(programId: Option<string>, programType: string, height: Option<int>,
                         settings: Option<seq<Value>>, showEditor: bool, showButtons: bool)

  /** What `render` produces. `height` is `None` when the height prop is
      missing (in the source it is then undefined, or NaN once the toolbar is
      added). */
  datatype View =
    | EmptyDiv
    | Scratchpad(src: Url, className: string, centred: bool, height: Option<int>, sandbox: string)

  /** The query flag for the editor: hidden, it also passes the article
      width. */
  function EditorFlag(showEditor: bool, articleMaxWidth: nat): string {
    if showEditor then "&editor=yes" else "&editor=no&width=" + NatToString(articleMaxWidth)
  }

  /** The query flag for the buttons. */
  function ButtonsFlag(showButtons: bool): string {
    if showButtons then "&buttons=yes" else "&buttons=no"
  }

  /** The query flags the editor and button options add, in order. With the
      editor hidden, the width between the editor flag and the buttons flag
      reads back as the article width. */
  function Flags(showEditor: bool, showButtons: bool, articleMaxWidth: nat): (r: string)
    ensures IsPrefix("&editor=", r)
    ensures !showEditor ==>
              IsPrefix("&editor=no&width=", r) && |r| > 17 + |ButtonsFlag(showButtons)| &&
              ParseDecimal(r[17..|r| - |ButtonsFlag(showButtons)|]) == articleMaxWidth
  {
    var b := ButtonsFlag(showButtons);
    if showEditor then
      "&editor=yes" + b
    else
      var w := NatToString(articleMaxWidth);
      ParseNatToString(articleMaxWidth);
      var r := "&editor=no&width=" + w + b;
      assert r[17..|r| - |b|] == w;
      r
  }

  /** Appending the editor flag, then the buttons flag, appends the flags. */
  lemma FlagsAppend(base: string, showEditor: bool, showButtons: bool, articleMaxWidth: nat)
    ensures base + EditorFlag(showEditor, articleMaxWidth) + ButtonsFlag(showButtons) ==
            base + Flags(showEditor, showButtons, articleMaxWidth)
  {
    assert Flags(showEditor, showButtons, articleMaxWidth) == EditorFlag(showEditor, articleMaxWidth) + ButtonsFlag(showButtons);
  }

  /** `render()`: no program ID, no frame. Otherwise the URL gets the editor
      flag (with the article width when the editor is hidden) and the buttons
      flag; the toolbar adds 67 pixels to the height; a hidden editor centres
      the frame unless the program is a web page; a settings list adds the
      settings object, and a `null` or `undefined` entry in it makes the
      render throw; the sandbox allows pop-ups, same-origin access, scripts
      and top-level navigation. */
  method Render(props: Props, fileProtocol: bool, toAbsoluteUrl: string -> string, articleMaxWidth: nat)
    returns (r: Result<View, string>)
    ensures props.programId.None? || props.programId == Some("") <==> r == Ok(EmptyDiv)
    ensures r.Err? <==> !(props.programId.None? || props.programId == Some("")) && props.settings.Some? && HasNullishEntry(props.settings.value)
    ensures r.Ok? && r.value.Scratchpad? ==>
              var base := UrlFromProgramId(props.programId.value, fileProtocol, toAbsoluteUrl);
              r.value.src.base == Str(base + Flags(props.showEditor, props.showButtons, articleMaxWidth)) &&
              |r.value.src.query| == (if props.settings.Some? then 1 else 0) &&
              (props.settings.Some? ==> r.value.src.query[0] == ("settings", Obj(SettingsOf(props.settings.value))))
    ensures r.Ok? && r.value.Scratchpad? ==>
              (r.value.className == if props.showEditor then "perseus-scratchpad-editor" else "perseus-scratchpad") &&
              (r.value.centred <==> !props.showEditor && props.programType != "webpage")
    ensures r.Ok? && r.value.Scratchpad? && props.showButtons ==>
              (props.height.Some? <==> r.value.height.Some?) &&
              (props.height.Some? ==> r.value.height.value == props.height.value + 67)
    ensures r.Ok? && r.value.Scratchpad? && !props.showButtons ==> r.value.height == props.height
    ensures r.Ok? && r.value.Scratchpad? ==> r.value.sandbox == Sandbox
  {
    if props.programId.None? || props.programId == Some("") {
      return Ok(EmptyDiv);
    }
    var styleContainer := false;
    ghost var base := UrlFromProgramId(props.programId.value, fileProtocol, toAbsoluteUrl);
    var url := UrlFromProgramId(props.programId.value, fileProtocol, toAbsoluteUrl);
    var className;
    var height := props.height;
    if props.showEditor {
      url := url + EditorFlag(true, articleMaxWidth);
      className := "perseus-scratchpad-editor";
    } else {
      url := url + EditorFlag(false, articleMaxWidth);
      className := "perseus-scratchpad";
      if props.programType != "webpage" {
        styleContainer := true;
      }
    }
    if props.showButtons {
      url := url + ButtonsFlag(true);
      if height.Some? {
        height := Some(height.value + 67);
      }
    } else {
      url := url + ButtonsFlag(false);
    }
    FlagsAppend(base, props.showEditor, props.showButtons, articleMaxWidth);
    var src := AddSettings(Url(Str(url), []), props.settings);
    if src.Err? {
      return Err(src.error);
    }
    var sandboxOptions := Sandbox;
    r := Ok(Scratchpad(src.value, className, styleContainer, height, sandboxOptions));
  }

  /** The sandbox: pop-ups, same-origin access, scripts and top-level
      navigation are allowed. */
  const Sandbox := "allow-popups allow-same-origin allow-scripts allow-top-navigation"

  /** The editor flag comes before the buttons flag, and each says what was
      asked for: the URL asks for the editor exactly when it is shown. */
  lemma FlagsSayWhatWasAsked(showEditor: bool, showButtons: bool, articleMaxWidth: nat)
    ensures IsPrefix("&editor=yes", Flags(showEditor, showButtons, articleMaxWidth)) <==> showEditor
    ensures EndsWith(Flags(showEditor, showButtons, articleMaxWidth), "&buttons=yes") <==> showButtons
  {
    var f := Flags(showEditor, showButtons, articleMaxWidth);
    if !showEditor {
      assert f[..11] != "&editor=yes" by { assert f[8] == 'n'; }
    }
    if !showButtons {
      assert f[|f| - 12..] != "&buttons=yes" by { assert f[|f| - 2] == 'n'; }
    }
  }
}
