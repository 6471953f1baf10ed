/**
 * The edit-product form of the admin client: the product as loaded from
 * the server, trimmed text edits, an optional replacement image, the
 * error object filled by validation and the multipart payload of the
 * update. The request itself is an oracle: the caller says whether it
 * succeeded.
 */
module EditProduct {
  import opened Wrappers
  import opened Strings
  import opened Uploads
  import opened ProductForm

  /** The product as the server sends it; price and stock count arrive as numbers. */
  datatype LoadedProduct = LoadedProduct(
    name: string, price: int, description: string, richDescription: string, categoryId: string,
    image: string, brand: string, countInStock: int)

  /** The form before the product has loaded. */
  const Initial: Data :=
    Data(Text(""), Text(""), Text(""), Text(""), Text(""), Null, Text(""), Text(""), Text(""))

  /** The keys of the form object in declaration order. */
  const KeyOrder: seq<Field> :=
    [Name, Price, Description, RichDescription, Category, Image, CurrentImageUrl, Brand, CountInStock]

  /** The form filled from a loaded product: no new file, the stored image address kept apart. */
  function LoadedData(p: LoadedProduct): (d: Data)
    ensures d.image == Null && d.currentImageUrl == Text(p.image)
    ensures d.price == Num(p.price) && d.countInStock == Num(p.countInStock)
    ensures d.category == Text(p.categoryId)
  {
    Data(Text(p.name), Num(p.price), Text(p.description), Text(p.richDescription), Text(p.categoryId),
         Null, Text(p.image), Text(p.brand), Num(p.countInStock))
  }

  /** The last `/`-separated segment of `s`: the text after its last slash, or all of it. */
  function LastSegment(s: string): (seg: string)
    ensures '/' !in seg && |seg| <= |s| && seg == s[|s| - |seg|..]
    ensures '/' !in s ==> seg == s
    ensures '/' in s ==> |seg| < |s| && s[|s| - |seg| - 1] == '/'
  {
    SplitLast(s, '/');
    Split(s, '/')[|Split(s, '/')| - 1]
  }

  /** The file name shown for a loaded product: the last segment of its image address, or nothing. */
  function SelectedFileName(imageUrl: string): (name: string)
    ensures imageUrl == "" ==> name == ""
    ensures '/' !in name && |name| <= |imageUrl| && name == imageUrl[|imageUrl| - |name|..]
  {
    if imageUrl == "" then "" else LastSegment(imageUrl)
  }

  /**
   * For an image this server stored from a client name without a slash,
   * the file name shown is exactly the stored `.webp` name.
   */
  lemma StoredImageFileName(protocol: string, host: string, originalName: string, now: nat)
    requires '/' !in originalName
    ensures SelectedFileName(Address(BasePath(protocol, host), WebpName(originalName, now)))
      == WebpName(originalName, now)
  {
    var name := WebpName(originalName, now);
    WebpNameShape(originalName, now);
    var base := BasePath(protocol, host);
    var dir := base[..|base| - 1];
    assert base == dir + ['/'];
    var s := Address(base, name);
    assert s == dir + ['/'] + name;
    assert LastSegment(s) == s[|s| - |name|..] == name;
  }

  /** Every field is a key of the form object. */
  lemma KeyOrderHasEveryField()
    ensures forall f :: f in KeyOrder
  {
    forall f: Field
      ensures f in KeyOrder
    {
      match f
      case Name => assert KeyOrder[0] == f;
      case Price => assert KeyOrder[1] == f;
      case Description => assert KeyOrder[2] == f;
      case RichDescription => assert KeyOrder[3] == f;
      case Category => assert KeyOrder[4] == f;
      case Image => assert KeyOrder[5] == f;
      case CurrentImageUrl => assert KeyOrder[6] == f;
      case Brand => assert KeyOrder[7] == f;
      case CountInStock => assert KeyOrder[8] == f;
    }
  }

  /** What the update sends: the new file first when one was chosen, then every other field but the current image address. */
  function Payload(data: Data): (entries: Entries)
    ensures Image in KeysOf(entries) <==> !Falsy(data.image)
    ensures CurrentImageUrl !in KeysOf(entries)
    ensures forall f :: f != Image && f != CurrentImageUrl ==> f in KeysOf(entries)
    ensures forall i :: 0 <= i < |entries| ==> entries[i].1 == data.Get(entries[i].0)
  {
    var head: Entries := if !Falsy(data.image) then [(Image, data.image)] else [];
    var rest := EntriesOf(data, KeyOrder, {Image, CurrentImageUrl});
    assert KeysOf(head) == if !Falsy(data.image) then [Image] else [];
    assert KeysOf(head + rest) == KeysOf(head) + KeysOf(rest);
    KeyOrderHasEveryField();
    head + rest
  }

  /** The payload is the optional file entry followed by the other fields in key order. */
  lemma PayloadParts(data: Data)
    ensures Payload(data) ==
      (if !Falsy(data.image) then [(Image, data.image)] else []) + EntriesOf(data, KeyOrder, {Image, CurrentImageUrl})
  {
  }

  /** The edit form's rules, run one after the other on an empty object. */
  lemma EditErrorsInOrder(data: Data, test: EmptyTest)
    ensures Errors(data, EditChecked, test) ==
      Checked(Checked(Checked(Checked(Checked(map[], data, Name, test), data, Price, test),
        data, Description, test), data, Category, test), data, CountInStock, test)
  {
    var s0: seq<Field> := [];
    var s1 := s0 + [Name];
    var s2 := s1 + [Price];
    var s3 := s2 + [Description];
    var s4 := s3 + [Category];
    assert EditChecked == s4 + [CountInStock];
    ErrorsSnoc(data, s0, Name, test);
    ErrorsSnoc(data, s1, Price, test);
    ErrorsSnoc(data, s2, Description, test);
    ErrorsSnoc(data, s3, Category, test);
    ErrorsSnoc(data, s4, CountInStock, test);
  }

  /**
   * As written, the required test is JavaScript's falsiness, so a product
   * loaded with a stock count of 0 cannot be saved without retyping it.
   */
  lemma LoadedZeroStockRefused(p: LoadedProduct)
    requires p.countInStock == 0
    ensures var errors := Errors(LoadedData(p), EditChecked, Falsiness);
      CountInStock in errors && errors[CountInStock] == "Stock count is required"
  {
    ErrorsByField(LoadedData(p), EditChecked, Falsiness);
  }

  /** With the required test as intended, a loaded price and stock count always count as filled and valid. */
  lemma LoadedNumbersFilled(p: LoadedProduct)
    ensures var errors := Errors(LoadedData(p), EditChecked, Blankness);
      Price !in errors && CountInStock !in errors
  {
    ErrorsByField(LoadedData(p), EditChecked, Blankness);
  }

  /**
   * The multipart body of an update, built as the handler builds it: the
   * chosen file first, then each key in declaration order except the
   * image and the current image address.
   */
  method BuildPayload(form: Data) returns (entries: Entries)
    ensures entries == Payload(form)
  {
    var head: Entries := [];
    if !Falsy(form.image) {
      head := head + [(Image, form.image)];
    }
    var rest := CollectEntries(form, KeyOrder, {Image, CurrentImageUrl});
    PayloadParts(form);
    entries := head + rest;
  }

  class EditProductForm {
    var data: Data
    var errors: map<Field, string>
    var selectedFileName: string
    var notice: Notice

    constructor ()
      ensures data == Initial && errors == map[] && selectedFileName == "" && notice == Closed
    {
      data := Initial;
      errors := map[];
      selectedFileName := "";
      notice := Closed;
    }

    /** The product loads: the form takes its values and the file name shown comes from its image address. */
    method Load(p: LoadedProduct)
      modifies this
      ensures data == LoadedData(p) && selectedFileName == SelectedFileName(p.image)
      ensures errors == old(errors) && notice == old(notice)
    {
      data := LoadedData(p);
      selectedFileName := SelectedFileName(p.image);
    }

    /** Typing stores the trimmed text (the category as chosen) and blanks that field's error. */
    method InputChange(f: Field, value: string)
      requires TextInput(f)
      modifies this
      ensures data == old(data).Set(f, Text(if f == Category then value else Trim(value)))
      ensures f != Category ==> data.Get(f) == Text(Trim(value))
      ensures errors == old(errors)[f := ""]
      ensures selectedFileName == old(selectedFileName) && notice == old(notice)
    {
      data := data.Set(f, Text(if f == Category then value else Trim(value)));
      errors := errors[f := ""];
    }

    /** Choosing a file stores it, drops the current image address and blanks the image error; choosing none changes nothing. */
    method ImageChange(file: Option<string>)
      modifies this
      ensures file.None? ==>
        data == old(data) && errors == old(errors) && selectedFileName == old(selectedFileName)
      ensures file.Some? ==>
        data == old(data).Set(Image, File(file.value)).Set(CurrentImageUrl, Text(""))
        && selectedFileName == file.value && errors == old(errors)[Image := ""]
      ensures notice == old(notice)
    {
      if file.Some? {
        data := data.Set(Image, File(file.value)).Set(CurrentImageUrl, Text(""));
        selectedFileName := file.value;
        errors := errors[Image := ""];
      }
    }

    /**
     * Validation fills a fresh error object field by field, each statement
     * running one field's rule, stores it and reports whether it is empty.
     * A number, 0 included, counts as filled.
     */
    method Validate() returns (valid: bool)
      modifies this
      ensures errors == Errors(data, EditChecked, Blankness)
      ensures valid <==> errors == map[]
      ensures data == old(data) && selectedFileName == old(selectedFileName) && notice == old(notice)
    {
      var newErrors: map<Field, string> := map[];
      newErrors := Checked(newErrors, data, Name, Blankness);
      newErrors := Checked(newErrors, data, Price, Blankness);
      newErrors := Checked(newErrors, data, Description, Blankness);
      newErrors := Checked(newErrors, data, Category, Blankness);
      newErrors := Checked(newErrors, data, CountInStock, Blankness);
      EditErrorsInOrder(data, Blankness);
      errors := newErrors;
      valid := |newErrors| == 0;
    }

    /**
     * Save: nothing is sent unless the form validates; the payload carries
     * the image only when a new file was chosen and never the current
     * image address.
     */
    method UpdateProduct(succeeded: bool) returns (payload: Option<Entries>)
      modifies this
      ensures errors == Errors(old(data), EditChecked, Blankness)
      ensures payload.Some? <==> errors == map[]
      ensures payload.Some? ==> payload.value == Payload(old(data))
      ensures data == old(data) && selectedFileName == old(selectedFileName)
      ensures payload.None? ==> notice == old(notice)
      ensures payload.Some? && succeeded ==> notice == Open("Product updated successfully!", true)
      ensures payload.Some? && !succeeded ==> notice == Open("Failed to update product. Please try again.", false)
    {
      var valid := Validate();
      if !valid {
        return None;
      }
      var entries := BuildPayload(data);
      payload := Some(entries);
      if succeeded {
        notice := Open("Product updated successfully!", true);
      } else {
        notice := Open("Failed to update product. Please try again.", false);
      }
    }
  }
}
