/**
 * The add-product form of the admin client: typed field values, a chosen
 * image file, the error object filled by validation, and the multipart
 * payload sent when the form is valid. The request itself is an oracle:
 * the caller says whether it succeeded.
 */
module AddProduct {
  import opened Wrappers
  import opened ProductForm

  /** The empty form: every text field empty and no file. */
  const Initial: Data :=
    Data(Text(""), Text(""), Text(""), Text(""), Text(""), Null, Text(""), Text(""), Text(""))

  /** The keys of the form object in declaration order; the add form has no current image. */
  const KeyOrder: seq<Field> := [Name, Price, Description, RichDescription, Category, Image, Brand, CountInStock]

  /** The payload holds every key of the form object, once each, in declaration order. */
  lemma PayloadHasEveryKey(data: Data)
    ensures KeysOf(EntriesOf(data, KeyOrder, {})) == KeyOrder
    ensures forall f :: f in KeysOf(EntriesOf(data, KeyOrder, {})) <==> f != CurrentImageUrl
  {
    EntriesWithoutSkip(data, KeyOrder);
  }

  /** The add form's rules, run one after the other on an empty object. */
  lemma AddErrorsInOrder(data: Data, test: EmptyTest)
    ensures Errors(data, AddChecked, test) ==
      Checked(Checked(Checked(Checked(Checked(Checked(map[], data, Name, test), data, Price, test),
        data, Description, test), data, Category, test), data, Image, test), data, CountInStock, test)
  {
    var s0: seq<Field> := [];
    var s1 := s0 + [Name];
    var s2 := s1 + [Price];
    var s3 := s2 + [Description];
    var s4 := s3 + [Category];
    var s5 := s4 + [Image];
    assert AddChecked == s5 + [CountInStock];
    ErrorsSnoc(data, s0, Name, test);
    ErrorsSnoc(data, s1, Price, test);
    ErrorsSnoc(data, s2, Description, test);
    ErrorsSnoc(data, s3, Category, test);
    ErrorsSnoc(data, s4, Image, test);
    ErrorsSnoc(data, s5, CountInStock, test);
  }

  class AddProductForm {
    var data: Data
    var errors: map<Field, string>
    var selectedFileName: string
    var notice: Notice

    /** Inputs only ever hold text, so no field holds a number. */
    ghost predicate Valid()
      reads this
    {
      forall f :: !data.Get(f).Num?
    }

    constructor ()
      ensures Valid()
      ensures data == Initial && errors == map[] && selectedFileName == "" && notice == Closed
    {
      data := Initial;
      errors := map[];
      selectedFileName := "";
      notice := Closed;
    }

    /** Typing into a field stores the text as typed and blanks that field's error. */
    method InputChange(f: Field, value: string)
      requires Valid() && TextInput(f)
      modifies this
      ensures Valid()
      ensures data == old(data).Set(f, Text(value))
      ensures errors == old(errors)[f := ""]
      ensures selectedFileName == old(selectedFileName) && notice == old(notice)
    {
      data := data.Set(f, Text(value));
      errors := errors[f := ""];
    }

    /** Choosing a file stores it and its name and blanks the image error; choosing none changes nothing. */
    method ImageChange(file: Option<string>)
      requires Valid()
      modifies this
      ensures Valid()
      ensures file.None? ==>
        data == old(data) && errors == old(errors) && selectedFileName == old(selectedFileName)
      ensures file.Some? ==>
        data == old(data).Set(Image, File(file.value)) && selectedFileName == file.value
        && errors == old(errors)[Image := ""]
      ensures notice == old(notice)
    {
      if file.Some? {
        data := data.Set(Image, File(file.value));
        selectedFileName := file.value;
        errors := errors[Image := ""];
      }
    }

    /**
     * Validation fills a fresh error object field by field, each statement
     * running one field's rule, stores it and reports whether it is empty.
     */
    method Validate() returns (valid: bool)
      modifies this
      ensures errors == Errors(data, AddChecked, Falsiness)
      ensures valid <==> errors == map[]
      ensures data == old(data) && selectedFileName == old(selectedFileName) && notice == old(notice)
    {
      var newErrors: map<Field, string> := map[];
      newErrors := Checked(newErrors, data, Name, Falsiness);
      newErrors := Checked(newErrors, data, Price, Falsiness);
      newErrors := Checked(newErrors, data, Description, Falsiness);
      newErrors := Checked(newErrors, data, Category, Falsiness);
      newErrors := Checked(newErrors, data, Image, Falsiness);
      newErrors := Checked(newErrors, data, CountInStock, Falsiness);
      AddErrorsInOrder(data, Falsiness);
      errors := newErrors;
      valid := |newErrors| == 0;
    }

    /**
     * Submit: nothing is sent unless the form validates; the payload has
     * every key of the form object; a successful request empties the form
     * and the chosen file name.
     */
    method AddProduct(succeeded: bool) returns (payload: Option<Entries>)
      requires Valid()
      modifies this
      ensures Valid()
      ensures errors == Errors(old(data), AddChecked, Falsiness)
      ensures payload.Some? <==> errors == map[]
      ensures payload.Some? ==> payload.value == EntriesOf(old(data), KeyOrder, {})
      ensures payload.None? ==>
        data == old(data) && selectedFileName == old(selectedFileName) && notice == old(notice)
      ensures payload.Some? && succeeded ==>
        data == Initial && selectedFileName == "" && notice == Open("Product added successfully!", true)
      ensures payload.Some? && !succeeded ==>
        data == old(data) && selectedFileName == old(selectedFileName)
        && notice == Open("Failed to add product. Please try again.", false)
    {
      var valid := Validate();
      if !valid {
        return None;
      }
      var entries := CollectEntries(data, KeyOrder, {});
      payload := Some(entries);
      if succeeded {
        data := Initial;
        selectedFileName := "";
        notice := Open("Product added successfully!", true);
      } else {
        notice := Open("Failed to add product. Please try again.", false);
      }
    }
  }
}
