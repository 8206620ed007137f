/** tools/template_converter.py: renaming a Rails template to its Django
    name, and converting its contents with the model. */
module TemplateConverter {
  import opened Text
  import opened Json
  import opened Llm

  /** The index of the last occurrence of `c` in `s`, or -1 when there is none. */
  function LastIndex(s: string, c: char): (r: int)
    ensures -1 <= r < |s|
    ensures r >= 0 ==> s[r] == c
    ensures forall j :: r < j < |s| ==> s[j] != c
    decreases |s|
  {
    if s == [] then -1
    else if s[|s| - 1] == c then |s| - 1
    else LastIndex(s[..|s| - 1], c)
  }

  /** The position of a last occurrence is determined by its two defining properties. */
  lemma LastIndexUnique(s: string, c: char, r: int)
    requires -1 <= r < |s|
    requires r >= 0 ==> s[r] == c
    requires forall j :: r < j < |s| ==> s[j] != c
    ensures LastIndex(s, c) == r
  {
  }

  /** Some character of `s` is not a dot. */
  predicate HasNonDot(s: string) {
    exists i :: 0 <= i < |s| && s[i] != '.'
  }

  /** POSIX `os.path.splitext(p)`: the extension starts at the last dot
      after the last slash, provided the file name has a non-dot character
      before that dot; otherwise the extension is empty. */
  function SplitExt(p: string): (r: (string, string))
    ensures r.0 + r.1 == p
  {
    var sep := LastIndex(p, '/');
    var dot := LastIndex(p, '.');
    if dot > sep && HasNonDot(p[sep + 1..dot]) then (p[..dot], p[dot..]) else (p, "")
  }

  /** `convert_filename(name)`. The `.html.erb` test is kept as written. */
  function ConvertFilename(name: string): string {
    var (base, ext) := SplitExt(name);
    if ext == ".erb" then base + ".html"
    else if ext == ".html.erb" then base + ".html"
    else name
  }

  /** An extension is empty, or one dot followed by neither a dot nor a slash. */
  lemma ExtensionShape(p: string)
    ensures var ext := SplitExt(p).1;
      ext == [] || (ext[0] == '.' && forall i :: 1 <= i < |ext| ==> ext[i] != '.' && ext[i] != '/')
  {
  }

  /** Hence the `.html.erb` branch of `convert_filename` is never taken. */
  lemma DoubleExtensionUnreachable(p: string)
    ensures SplitExt(p).1 != ".html.erb"
  {
    ExtensionShape(p);
    assert ".html.erb"[5] == '.';
  }

  /** Appending text changes the last occurrence of `c` only through an
      occurrence of `c` at the start of the appended text. */
  lemma LastIndexAppended(base: string, ext: string, c: char)
    requires forall i :: 1 <= i < |ext| ==> ext[i] != c
    ensures ext != [] && ext[0] == c ==> LastIndex(base + ext, c) == |base|
    ensures (ext == [] || ext[0] != c) ==> LastIndex(base + ext, c) == LastIndex(base, c)
  {
    var p := base + ext;
    assert forall j :: |base| <= j < |p| ==> p[j] == ext[j - |base|];
    if ext != [] && ext[0] == c {
      LastIndexUnique(p, c, |base|);
    } else {
      assert forall j :: 0 <= j < |base| ==> p[j] == base[j];
      LastIndexUnique(p, c, LastIndex(base, c));
    }
  }

  /** A single-dot extension appended to a name whose file name has a
      non-dot character is exactly what `SplitExt` splits off again. */
  lemma SplitAppended(base: string, ext: string)
    requires HasNonDot(base[LastIndex(base, '/') + 1..])
    requires ext != [] && ext[0] == '.'
    requires forall i :: 1 <= i < |ext| ==> ext[i] != '.' && ext[i] != '/'
    ensures SplitExt(base + ext) == (base, ext)
  {
    var p := base + ext;
    var sep := LastIndex(base, '/');
    LastIndexAppended(base, ext, '.');
    LastIndexAppended(base, ext, '/');
    assert LastIndex(p, '.') == |base| && LastIndex(p, '/') == sep;
    assert p[sep + 1..|base|] == base[sep + 1..];
    assert p[..|base|] == base;
    assert p[|base|..] == ext;
  }

  /** A name ending in `.erb`, whose file name has a non-dot character
      before that suffix, keeps everything before it and gains `.html`. */
  lemma ErbRenamed(base: string)
    requires HasNonDot(base[LastIndex(base, '/') + 1..])
    ensures ConvertFilename(base + ".erb") == base + ".html"
  {
    SplitAppended(base, ".erb");
  }

  /** Every other name is returned unchanged. */
  lemma OtherNamesUnchanged(name: string)
    requires SplitExt(name).1 != ".erb"
    ensures ConvertFilename(name) == name
  {
    DoubleExtensionUnreachable(name);
  }

  /** A plain file name (no directory, not starting with a dot) ending in `.erb`. */
  lemma PlainErbRenamed(base: string)
    requires base != [] && base[0] != '.' && forall i :: 0 <= i < |base| ==> base[i] != '/'
    ensures ConvertFilename(base + ".erb") == base + ".html"
  {
    LastIndexUnique(base, '/', -1);
    assert base[0..] == base;
    ErbRenamed(base);
  }

  lemma SingleExtensionExample()
    ensures ConvertFilename("show.erb") == "show.html"
  {
    var base := "show";
    assert forall i :: 0 <= i < |base| ==> base[i] != '/';
    PlainErbRenamed(base);
    assert base + ".erb" == "show.erb";
    assert base + ".html" == "show.html";
  }

  /** Only the last extension counts: `index.html.erb` becomes `index.html.html`. */
  lemma DoubleExtensionExample()
    ensures ConvertFilename("index.html.erb") == "index.html.html"
  {
    var base := "index.html";
    assert forall i :: 0 <= i < |base| ==> base[i] != '/';
    PlainErbRenamed(base);
    assert base + ".erb" == "index.html.erb";
    assert base + ".html" == "index.html.html";
  }

  /** A name made of a leading dot and `erb` has no extension and is kept. */
  lemma DotFileExample()
    ensures ConvertFilename(".erb") == ".erb"
  {
    var p := ".erb";
    LastIndexUnique(p, '.', 0);
    LastIndexUnique(p, '/', -1);
    assert p[0..0] == [];
    OtherNamesUnchanged(p);
  }

  /** Cutting text after the last occurrence of `c` keeps that occurrence last. */
  lemma LastIndexPrefix(s: string, k: nat, c: char)
    requires LastIndex(s, c) < k <= |s|
    ensures LastIndex(s[..k], c) == LastIndex(s, c)
  {
    assert forall j :: 0 <= j < k ==> s[..k][j] == s[j];
    LastIndexUnique(s[..k], c, LastIndex(s, c));
  }

  /** A split-off extension leaves a base whose file name has a non-dot character. */
  lemma SplitBase(name: string)
    requires SplitExt(name).1 != []
    ensures var base := SplitExt(name).0;
      HasNonDot(base[LastIndex(base, '/') + 1..])
  {
    var sep := LastIndex(name, '/');
    var dot := LastIndex(name, '.');
    assert dot > sep && HasNonDot(name[sep + 1..dot]);
    assert SplitExt(name).0 == name[..dot];
    LastIndexPrefix(name, dot, '/');
    assert name[..dot][sep + 1..] == name[sep + 1..dot];
  }

  /** The result never has extension `.erb`, so renaming twice is renaming once. */
  lemma ConvertFilenameIdempotent(name: string)
    ensures ConvertFilename(ConvertFilename(name)) == ConvertFilename(name)
  {
    var (base, ext) := SplitExt(name);
    DoubleExtensionUnreachable(name);
    if ext == ".erb" {
      SplitBase(name);
      SplitAppended(base, ".html");
      OtherNamesUnchanged(base + ".html");
    } else {
      OtherNamesUnchanged(name);
    }
  }

  /** `convert_template_with_llm(content)`: the model's stripped answer, or
      the content itself when the call fails. */
  function ConvertTemplateWithLlm(model: Model, content: string): (r: string)
    ensures model(ConvertTemplate(content)).None? ==> r == content
    ensures model(ConvertTemplate(content)).Some? ==> r == Strip(model(ConvertTemplate(content)).value)
  {
    match Answer(model, ConvertTemplate(content))
    case None => content
    case Some(t) => t
  }
}
