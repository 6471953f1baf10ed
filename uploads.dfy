/**
 * Naming of uploaded product images: the MIME allow-list, the stored
 * `.webp` file name derived from the client's file name and the upload
 * time, the public address of a stored file and the way the address is
 * turned back into the file to delete.
 */
module Uploads {
  import opened Wrappers
  import opened Strings

  /** The allow-list: MIME type to the extension it stands for. */
  const FileTypeMap: map<string, string> :=
    map["image/png" := "png", "image/jpeg" := "jpeg", "image/jpg" := "jpg"]

  /**
   * Names every plain JavaScript object inherits from Object.prototype. Looking one
   * of them up in an object literal yields a function or an object, which is truthy.
   */
  const PrototypeKeys: set<string> := {
    "constructor", "hasOwnProperty", "isPrototypeOf", "propertyIsEnumerable",
    "toString", "toLocaleString", "valueOf", "__proto__",
    "__defineGetter__", "__defineSetter__", "__lookupGetter__", "__lookupSetter__"
  }

  /** The filter as intended: only the three raster types of the allow-list. */
  function FileFilter(mimetype: string): (accepted: bool)
    ensures accepted <==> mimetype == "image/png" || mimetype == "image/jpeg" || mimetype == "image/jpg"
  {
    mimetype in FileTypeMap.Keys
  }

  /**
   * The filter as written: the allow-list object is indexed by the declared
   * type and any truthy value accepts. It accepts everything the intended
   * filter accepts, and beyond that exactly the inherited names.
   */
  function FileFilterAsWritten(mimetype: string): (accepted: bool)
    ensures FileFilter(mimetype) ==> accepted
    ensures accepted <==> FileFilter(mimetype) || mimetype in PrototypeKeys
  {
    mimetype in FileTypeMap.Keys || mimetype in PrototypeKeys
  }

  /** A part whose declared type is `constructor` passes the filter as written, but not the intended one. */
  lemma PrototypeKeyAccepted()
    ensures FileFilterAsWritten("constructor")
    ensures !FileFilter("constructor")
  {
  }

  /** What multer does with a rejected part: the error reaches Express's default handler. */
  const InvalidImageType: Reply := Sent(500, "Invalid Image Type")

  /** The client's file name split on spaces, re-joined with dashes, then cut before its first dot. */
  function Stem(originalName: string): string
  {
    Split(Join(Split(originalName, ' '), '-'), '.')[0]
  }

  /**
   * The stem is the client's file name up to its first dot, with every
   * space turned into a dash: it holds neither a space nor a dot and is
   * no longer than the original name.
   */
  lemma StemShape(originalName: string)
    ensures var stem := Stem(originalName);
      && |stem| <= |originalName|
      && ' ' !in stem && '.' !in stem
      && stem == ReplaceChar(originalName, ' ', '-')[..|stem|]
      && (|stem| < |originalName| ==> originalName[|stem|] == '.')
      && ('/' !in originalName ==> '/' !in stem)
  {
    var dashed := Join(Split(originalName, ' '), '-');
    JoinSplitIsReplace(originalName, ' ', '-');
    SplitHead(dashed, '.');
    var stem := Stem(originalName);
    assert forall i :: 0 <= i < |stem| ==> stem[i] == dashed[i];
  }

  /** The stored name: stem, a dash, the upload time in milliseconds, then the `.webp` extension. */
  function WebpName(originalName: string, now: nat): string
  {
    Stem(originalName) + "-" + NatToDecimal(now) + ".webp"
  }

  const Extension: string := ".webp"

  /**
   * A stored name always ends in `.webp`, holds no space, and its first dot
   * is the one of the extension; it holds a slash only if the client's
   * name did.
   */
  lemma WebpNameShape(originalName: string, now: nat)
    ensures var name := WebpName(originalName, now);
      && |name| > |Extension|
      && name[|name| - |Extension|..] == Extension
      && ' ' !in name
      && '.' !in name[..|name| - |Extension|]
      && ('/' !in originalName ==> '/' !in name)
  {
    StemShape(originalName);
    var stem := Stem(originalName);
    var digits := NatToDecimal(now);
    var name := WebpName(originalName, now);
    assert name == (stem + "-" + digits) + Extension;
    assert name[..|name| - |Extension|] == stem + "-" + digits;
    assert forall i :: 0 <= i < |digits| ==> IsDigit(digits[i]);
  }

  const UploadDir: string := "public/uploads/"

  /** The public prefix of stored files, built from the scheme and host the request came in on. */
  function BasePath(protocol: string, host: string): (base: string)
    ensures |base| >= |UploadDir| && base[|base| - |UploadDir|..] == UploadDir
  {
    protocol + "://" + host + "/" + UploadDir
  }

  /** The address saved on the product: the base path followed by the stored name. */
  function Address(basePath: string, name: string): string
  {
    basePath + name
  }

  /** The file unlinked for a saved address: the first occurrence of the base path is removed and the rest is put below the upload directory. */
  function UnlinkTarget(basePath: string, address: string): string
  {
    UploadDir + ReplaceFirst(address, basePath, "")
  }

  /** Stripping the base path from an address this code built gives back the stored file. */
  lemma UnlinkRoundTrip(basePath: string, name: string)
    ensures UnlinkTarget(basePath, Address(basePath, name)) == UploadDir + name
  {
    ReplacePrefix(basePath, name);
  }

  /** An address built under another base path is unlinked as the whole address below the upload directory. */
  lemma UnlinkForeignAddress(basePath: string, address: string)
    requires forall j :: !OccursAt(address, basePath, j)
    ensures UnlinkTarget(basePath, address) == UploadDir + address
  {
  }
}
