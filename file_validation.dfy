/**
 * The browser-side upload rules: the per-type configuration table
 * (`fileTypeConfigs`) and the validator `validateFile`, which accepts a file
 * whose lower-cased name ends with an allowed extension and, for ZIP archives,
 * whose size is at most 50 MiB.
 */
module FileValidation {
  import opened JsText

  /** The keys of the configuration table, i.e. the options of the type selector. */
  datatype FileType = Html | Zip | Js | Css | Multiple {
    function Name(): string
    {
      match this
      case Html => "html"
      case Zip => "zip"
      case Js => "js"
      case Css => "css"
      case Multiple => "multiple"
    }
  }

  datatype FileTypeConfig = FileTypeConfig(accept: string, multiple: bool, allowedExtensions: seq<string>, description: string)

  /** `fileTypeConfigs[t]` */
  function Config(t: FileType): (r: FileTypeConfig)
    ensures r.multiple <==> t == Multiple
    ensures r.allowedExtensions != []
    ensures forall i :: 0 <= i < |r.allowedExtensions| ==>
      |r.allowedExtensions[i]| >= 2 && r.allowedExtensions[i][0] == '.'
    // every single-file type other than zip is covered by the multiple-files list
    ensures t != Zip ==> forall i :: 0 <= i < |r.allowedExtensions| ==>
      r.allowedExtensions[i] in AllowedExtensions(Multiple)
    ensures ".zip" !in AllowedExtensions(Multiple)
  {
    FileTypeConfig(Accept(t), AllowsMultiple(t), AllowedExtensions(t), Description(t))
  }

  function Accept(t: FileType): string
  {
    match t
    case Html => ".html"
    case Zip => ".zip"
    case Js => ".js"
    case Css => ".css"
    case Multiple => ".html,.js,.css,.png,.jpg,.jpeg,.gif,.txt,.json"
  }

  /** Only the "multiple" type lets the user pick more than one file. */
  predicate AllowsMultiple(t: FileType)
  {
    t == Multiple
  }

  function AllowedExtensions(t: FileType): (r: seq<string>)
    ensures r != []
    ensures forall i :: 0 <= i < |r| ==> |r[i]| >= 2 && r[i][0] == '.'
  {
    match t
    case Html => [".html", ".htm"]
    case Zip => [".zip"]
    case Js => [".js"]
    case Css => [".css"]
    case Multiple => [".html", ".htm", ".js", ".css", ".png", ".jpg", ".jpeg", ".gif", ".txt", ".json"]
  }

  function Description(t: FileType): string
  {
    match t
    case Html => "HTML files only"
    case Zip => "ZIP archives only"
    case Js => "JavaScript files only"
    case Css => "CSS files only"
    case Multiple => "Multiple web files allowed"
  }

  /** The name and byte size of a chosen file. */
  datatype File = File(name: string, size: nat)

  datatype Validation = Validation(valid: bool, message: string)

  /** `50 * 1024 * 1024` bytes. */
  const MaxZipBytes: nat := 50 * 1024 * 1024

  /** `exts.some(ext => name.endsWith(ext))` */
  function SomeEndsWith(name: string, exts: seq<string>): bool
  {
    exts != [] && (EndsWith(name, exts[0]) || SomeEndsWith(name, exts[1..]))
  }

  function ExtensionError(t: FileType): string
  {
    "Invalid file type for " + t.Name() + ". Allowed: " + Join(Config(t).allowedExtensions, ", ")
  }

  const ZipTooLarge := "ZIP file too large (max 50MB)"

  /** Which of `validateFile`'s checks, taken in order, a file fails first. */
  datatype Verdict = Passes | BadExtension | TooLarge | NotHtml

  function Check(f: File, t: FileType): Verdict
  {
    var name := Lower(f.name);
    if !SomeEndsWith(name, AllowedExtensions(t)) then BadExtension
    else if t == Zip && f.size > MaxZipBytes then TooLarge
    else if t == Html && !EndsWith(name, ".html") && !EndsWith(name, ".htm") then NotHtml
    else Passes
  }

  /** `validateFile(file, fileType)`: the verdict with the message shown for it. */
  function ValidateFile(f: File, t: FileType): (r: Validation)
    ensures r.valid <==> r.message == "File is valid"
    ensures r.message != ""
  {
    match Check(f, t)
    case BadExtension => Validation(false, ExtensionError(t))
    case TooLarge => Validation(false, ZipTooLarge)
    case NotHtml => Validation(false, "Only HTML files (.html or .htm) are allowed")
    case Passes => Validation(true, "File is valid")
  }

  predicate IsValid(f: File, t: FileType)
  {
    Check(f, t) == Passes
  }

  /** The lower-cased name ends with one of the type's allowed extensions. */
  ghost predicate HasAllowedExtension(name: string, t: FileType)
  {
    exists i :: 0 <= i < |AllowedExtensions(t)| && EndsWith(Lower(name), AllowedExtensions(t)[i])
  }

  /** The acceptance rule, stated independently of the validator's branch order. */
  ghost predicate Acceptable(f: File, t: FileType)
  {
    HasAllowedExtension(f.name, t) && (t == Zip ==> f.size <= MaxZipBytes)
  }

  lemma {:induction false} SomeEndsWithIff(name: string, exts: seq<string>)
    ensures SomeEndsWith(name, exts) <==> exists i :: 0 <= i < |exts| && EndsWith(name, exts[i])
  {
    if exts != [] {
      SomeEndsWithIff(name, exts[1..]);
      if exists i :: 0 <= i < |exts| && EndsWith(name, exts[i]) {
        var i :| 0 <= i < |exts| && EndsWith(name, exts[i]);
        if i > 0 {
          assert exts[1..][i - 1] == exts[i];
        }
      }
      if SomeEndsWith(name, exts[1..]) {
        var j :| 0 <= j < |exts[1..]| && EndsWith(name, exts[1..][j]);
        assert exts[j + 1] == exts[1..][j];
      }
    }
  }

  /** The HTML-specific check after the extension check can never reject a file. */
  lemma HtmlCheckIsRedundant(f: File)
    requires SomeEndsWith(Lower(f.name), AllowedExtensions(Html))
    ensures EndsWith(Lower(f.name), ".html") || EndsWith(Lower(f.name), ".htm")
  {
    var exts := AllowedExtensions(Html);
    var name := Lower(f.name);
    assert exts[1..] == [".htm"] && exts[1..][1..] == [];
    assert !SomeEndsWith(name, exts[1..][1..]);
    assert SomeEndsWith(name, exts[1..]) ==> EndsWith(name, ".htm");
  }

  /** `validateFile` accepts exactly the acceptable files, and names the first rule a file breaks. */
  lemma ValidateFileCharacterised(f: File, t: FileType)
    ensures ValidateFile(f, t).valid <==> Acceptable(f, t)
    ensures IsValid(f, t) <==> Acceptable(f, t)
    ensures ValidateFile(f, t).valid ==> ValidateFile(f, t).message == "File is valid"
    ensures !HasAllowedExtension(f.name, t) ==> ValidateFile(f, t) == Validation(false, ExtensionError(t))
    ensures HasAllowedExtension(f.name, t) && t == Zip && f.size > MaxZipBytes ==>
      ValidateFile(f, t) == Validation(false, ZipTooLarge)
  {
    SomeEndsWithIff(Lower(f.name), AllowedExtensions(t));
    if t == Html && SomeEndsWith(Lower(f.name), AllowedExtensions(t)) {
      HtmlCheckIsRedundant(f);
    }
  }

  /** Two names that differ only in the case of ASCII letters. */
  ghost predicate SameIgnoringCase(a: string, b: string)
  {
    |a| == |b| && forall i :: 0 <= i < |a| ==> LowerChar(a[i]) == LowerChar(b[i])
  }

  /** The outcome of validation does not depend on the case of the name. */
  lemma ValidateIgnoresCase(a: string, b: string, size: nat, t: FileType)
    requires SameIgnoringCase(a, b)
    ensures ValidateFile(File(a, size), t) == ValidateFile(File(b, size), t)
  {
    assert Lower(a) == Lower(b);
  }

  /** The ZIP size limit is inclusive: exactly 50 MiB passes, one byte more fails. */
  lemma ZipSizeBoundary(name: string)
    requires EndsWith(Lower(name), ".zip")
    ensures ValidateFile(File(name, MaxZipBytes), Zip) == Validation(true, "File is valid")
    ensures ValidateFile(File(name, MaxZipBytes + 1), Zip) == Validation(false, "ZIP file too large (max 50MB)")
  {
  }

  /** The size limit applies to ZIP archives only. */
  lemma SizeMattersOnlyForZip(f: File, t: FileType, size: nat)
    requires t != Zip
    ensures ValidateFile(f, t) == ValidateFile(File(f.name, size), t)
  {
  }

  /** The extension error text lists the allowed extensions separated by ", ". */
  lemma ExtensionErrorText()
    ensures ExtensionError(Html) == "Invalid file type for html. Allowed: .html, .htm"
    ensures ExtensionError(Zip) == "Invalid file type for zip. Allowed: .zip"
  {
    var html := AllowedExtensions(Html);
    assert html[1..] == [".htm"];
    assert Join(html, ", ") == ".html" + ", " + ".htm";
  }
}
