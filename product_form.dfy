/**
 * What the add-product and edit-product forms share: the form fields, the
 * values a field can hold, JavaScript's truthiness and number tests on
 * those values, the validation rules and the form payload.
 */
module ProductForm {
  import opened Wrappers
  import opened Strings

  datatype Field = Name | Price | Description | RichDescription | Category | Image | CurrentImageUrl | Brand | CountInStock

  /**
   * A field value: text typed into an input, a number loaded from the
   * server, a chosen file (by its name) or `null`.
   */
  datatype Value = Text(s: string) | Num(n: int) | File(fileName: string) | Null

  /** The form state object, one value per field. */
  datatype Data = Data(
    name: Value, price: Value, description: Value, richDescription: Value, category: Value,
    image: Value, currentImageUrl: Value, brand: Value, countInStock: Value)
  {
    function Get(f: Field): Value {
      match f
      case Name => name
      case Price => price
      case Description => description
      case RichDescription => richDescription
      case Category => category
      case Image => image
      case CurrentImageUrl => currentImageUrl
      case Brand => brand
      case CountInStock => countInStock
    }

    /** The object spread with one computed key: that field takes the value, the others keep theirs. */
    function Set(f: Field, v: Value): (d: Data)
      ensures d.Get(f) == v
      ensures forall g :: g != f ==> d.Get(g) == Get(g)
    {
      match f
      case Name => this.(name := v)
      case Price => this.(price := v)
      case Description => this.(description := v)
      case RichDescription => this.(richDescription := v)
      case Category => this.(category := v)
      case Image => this.(image := v)
      case CurrentImageUrl => this.(currentImageUrl := v)
      case Brand => this.(brand := v)
      case CountInStock => this.(countInStock := v)
    }
  }

  /** The fields bound to a text input or a select; the image has its own file input. */
  predicate TextInput(f: Field) {
    f != Image && f != CurrentImageUrl
  }

  /** JavaScript's `!v`: the empty string, the number 0 and `null` are falsy; a file object is not. */
  predicate Falsy(v: Value) {
    match v
    case Text(s) => s == ""
    case Num(n) => n == 0
    case File(_) => false
    case Null => true
  }

  /** A field with nothing in it: empty text or `null`. A number, 0 included, is a value. */
  predicate Blank(v: Value) {
    v == Text("") || v == Null
  }

  /** Which test of an empty field validation applies. */
  datatype EmptyTest = Falsiness | Blankness

  predicate Missing(v: Value, test: EmptyTest) {
    match test
    case Falsiness => Falsy(v)
    case Blankness => Blank(v)
  }

  /**
   * A decimal literal: an optional sign, digits, and optionally a point
   * followed by more digits, with at least one digit in all.
   */
  predicate DecimalLiteral(t: string) {
    var body := if |t| > 0 && (t[0] == '+' || t[0] == '-') then t[1..] else t;
    var k := DigitRun(body);
    (k == |body| && k > 0)
    || (k < |body| && body[k] == '.' && AllDigits(body[k + 1..]) && (k > 0 || k + 1 < |body|))
  }

  /** The digits after the point of a decimal literal; empty when there is no point. */
  function Fraction(t: string): (f: string)
    ensures |f| <= |t| && f == t[|t| - |f|..]
    ensures DecimalLiteral(t) ==> AllDigits(f) && '.' !in f
    ensures DecimalLiteral(t) && |f| > 0 ==> |f| < |t| && t[|t| - |f| - 1] == '.'
    ensures DecimalLiteral(t) && '.' !in t ==> f == ""
  {
    var body := if |t| > 0 && (t[0] == '+' || t[0] == '-') then t[1..] else t;
    var k := DigitRun(body);
    if k < |body| then body[k + 1..] else ""
  }

  /** `Number(s)` is not NaN: the trimmed text is empty (read as 0) or a decimal literal. */
  predicate NumericText(s: string) {
    Trim(s) == "" || DecimalLiteral(Trim(s))
  }

  /** `Number.isInteger(Number(s))`: numeric, and every digit after the point is 0. */
  predicate IntegralText(s: string) {
    NumericText(s) && forall i :: 0 <= i < |Fraction(Trim(s))| ==> Fraction(Trim(s))[i] == '0'
  }

  /** `isNaN(v)`. */
  predicate NotANumber(v: Value) {
    match v
    case Text(s) => !NumericText(s)
    case Num(_) => false
    case File(_) => true
    case Null => false
  }

  /** `Number.isInteger(Number(v))`; loaded numbers are whole in this model. */
  predicate IntegerValue(v: Value) {
    match v
    case Text(s) => IntegralText(s)
    case Num(_) => true
    case File(_) => false
    case Null => true
  }

  /** The message for a field left empty. */
  function RequiredMessage(f: Field): string {
    match f
    case Name => "Name is required"
    case Price => "Price is required"
    case Description => "Description is required"
    case Category => "Category is required"
    case Image => "Image is required"
    case CountInStock => "Stock count is required"
    case _ => ""
  }

  const NotANumberMessage: string := "Price must be a number"
  const NotAnIntegerMessage: string := "Stock count must be an integer"

  /** The fields the add form checks, and those the edit form checks, in the order they are checked. */
  const AddChecked: seq<Field> := [Name, Price, Description, Category, Image, CountInStock]
  const EditChecked: seq<Field> := [Name, Price, Description, Category, CountInStock]

  /** The rule of one field: its required test first, then the number test of price and stock count. */
  function FieldError(f: Field, v: Value, test: EmptyTest): Option<string> {
    if Missing(v, test) then Some(RequiredMessage(f))
    else if f == Price && NotANumber(v) then Some(NotANumberMessage)
    else if f == CountInStock && !IntegerValue(v) then Some(NotAnIntegerMessage)
    else None
  }

  /** The error object after the rule of field `f` has run on it. */
  function Checked(errors: map<Field, string>, data: Data, f: Field, test: EmptyTest): map<Field, string> {
    match FieldError(f, data.Get(f), test)
    case Some(m) => errors[f := m]
    case None => errors
  }

  /**
   * The error object validation builds by running the rules of `fields`
   * in order on an empty object; `test` decides what counts as an empty
   * field.
   */
  function Errors(data: Data, fields: seq<Field>, test: EmptyTest): (errors: map<Field, string>)
    ensures forall f :: f in errors ==> f in fields
  {
    if |fields| == 0 then map[]
    else Checked(Errors(data, fields[..|fields| - 1], test), data, fields[|fields| - 1], test)
  }

  /** Checking one more field runs its rule on the object built so far. */
  lemma ErrorsSnoc(data: Data, fields: seq<Field>, f: Field, test: EmptyTest)
    ensures Errors(data, fields + [f], test) == Checked(Errors(data, fields, test), data, f, test)
  {
    assert (fields + [f])[..|fields|] == fields;
  }

  /** A field has a message exactly when it is checked and its rule fires, and the message is the rule's. */
  lemma {:induction false} ErrorsByField(data: Data, fields: seq<Field>, test: EmptyTest)
    ensures forall f :: f in Errors(data, fields, test) <==> f in fields && FieldError(f, data.Get(f), test).Some?
    ensures forall f :: f in Errors(data, fields, test) ==>
      Errors(data, fields, test)[f] == FieldError(f, data.Get(f), test).value
    decreases |fields|
  {
    if |fields| > 0 {
      var init := fields[..|fields| - 1];
      ErrorsByField(data, init, test);
      assert fields == init + [fields[|fields| - 1]];
    }
  }

  /**
   * Each checked field left empty gets its "is required" message; a filled
   * price gets "must be a number" exactly when it is not a number, a filled
   * stock count "must be an integer" exactly when it is not whole; every
   * other filled field gets no message.
   */
  lemma ErrorsMessages(data: Data, fields: seq<Field>, test: EmptyTest)
    ensures var errors := Errors(data, fields, test);
      && (forall f :: f in fields && Missing(data.Get(f), test) ==> f in errors && errors[f] == RequiredMessage(f))
      && (Price in fields && !Missing(data.price, test) ==>
            (Price in errors <==> NotANumber(data.price)) && (Price in errors ==> errors[Price] == NotANumberMessage))
      && (CountInStock in fields && !Missing(data.countInStock, test) ==>
            (CountInStock in errors <==> !IntegerValue(data.countInStock))
            && (CountInStock in errors ==> errors[CountInStock] == NotAnIntegerMessage))
      && (forall f :: f in fields && f != Price && f != CountInStock && !Missing(data.Get(f), test) ==> f !in errors)
  {
    ErrorsByField(data, fields, test);
  }

  /** The form is valid exactly when every checked field is filled, the price is a number and the stock count an integer. */
  lemma ValidIff(data: Data, fields: seq<Field>, test: EmptyTest)
    requires Price in fields && CountInStock in fields
    ensures Errors(data, fields, test) == map[] <==>
      (forall f :: f in fields ==> !Missing(data.Get(f), test))
      && !NotANumber(data.price) && IntegerValue(data.countInStock)
  {
    ErrorsByField(data, fields, test);
    var errors := Errors(data, fields, test);
    if errors == map[] {
      forall f | f in fields
        ensures !Missing(data.Get(f), test)
      {
        assert f !in errors;
      }
      assert Price !in errors;
      assert CountInStock !in errors;
    } else {
      var f :| f in errors;
      assert f in fields && FieldError(f, data.Get(f), test).Some?;
    }
  }

  /** The edit form applies the add form's rules without the image requirement. */
  lemma EditIsAddWithoutImage(data: Data, test: EmptyTest)
    ensures Errors(data, EditChecked, test) == Errors(data, AddChecked, test) - {Image}
  {
    ErrorsByField(data, EditChecked, test);
    ErrorsByField(data, AddChecked, test);
    var e := Errors(data, EditChecked, test);
    var a := Errors(data, AddChecked, test) - {Image};
    assert forall f :: f in EditChecked <==> f in AddChecked && f != Image;
    assert e.Keys == a.Keys;
  }

  /** On a form holding no number, the empty test and JavaScript's falsiness agree, and so does validation. */
  lemma BlankIsFalsyWithoutNumbers(data: Data, fields: seq<Field>)
    requires forall f :: !data.Get(f).Num?
    ensures Errors(data, fields, Falsiness) == Errors(data, fields, Blankness)
  {
    ErrorsByField(data, fields, Falsiness);
    ErrorsByField(data, fields, Blankness);
    var a := Errors(data, fields, Falsiness);
    var b := Errors(data, fields, Blankness);
    forall f
      ensures Falsy(data.Get(f)) == Blank(data.Get(f))
    {
      assert !data.Get(f).Num?;
    }
    assert a.Keys == b.Keys;
  }

  /** Every character of `s` that is not white space survives trimming. */
  lemma TrimKeeps(s: string, c: char)
    requires c in s && !IsSpace(c)
    ensures c in Trim(s)
  {
    var i :| 0 <= i < |s| && s[i] == c;
    var r1 := TrimStart(s);
    assert i >= |s| - |r1|;
    assert r1[i - (|s| - |r1|)] == c;
    var r2 := TrimEnd(r1);
    assert i - (|s| - |r1|) < |r2|;
    assert r2[i - (|s| - |r1|)] == c;
  }

  /** A decimal literal holds only digits, a sign and a point. */
  lemma DecimalLiteralChars(t: string, c: char)
    requires DecimalLiteral(t) && c in t
    ensures IsDigit(c) || c == '+' || c == '-' || c == '.'
  {
    var body := if |t| > 0 && (t[0] == '+' || t[0] == '-') then t[1..] else t;
    var k := DigitRun(body);
    var i :| 0 <= i < |t| && t[i] == c;
    if body != t && i == 0 {
    } else {
      var j := if body != t then i - 1 else i;
      assert body[j] == c;
      if j < k {
        assert body[..k][j] == c;
      } else if j > k {
        assert body[k + 1..][j - k - 1] == c;
      }
    }
  }

  /** Text holding a character that cannot occur in a number (a letter, say) is not a number. */
  lemma ForeignCharIsNaN(s: string, c: char)
    requires c in s && !IsSpace(c) && !IsDigit(c) && c != '+' && c != '-' && c != '.'
    ensures !NumericText(s)
  {
    TrimKeeps(s, c);
    if DecimalLiteral(Trim(s)) {
      DecimalLiteralChars(Trim(s), c);
    }
  }

  /** Text without white space at either end is its own trim. */
  lemma TrimUnspaced(s: string)
    requires forall i :: 0 <= i < |s| ==> !IsSpace(s[i])
    ensures Trim(s) == s
  {
    var r1 := TrimStart(s);
    assert |r1| == |s|;
    assert r1 == s[0..];
    var r2 := TrimEnd(r1);
    assert |r2| == |r1|;
    assert r2 == r1[..|r1|];
  }

  /** The decimal form of a count, as typed, is accepted as a stock count. */
  lemma DecimalIsInteger(n: nat)
    ensures NumericText(NatToDecimal(n)) && IntegralText(NatToDecimal(n))
  {
    var s := NatToDecimal(n);
    assert forall i :: 0 <= i < |s| ==> IsDigit(s[i]);
    TrimUnspaced(s);
    assert s[0] != '+' && s[0] != '-';
    AllDigitsRun(s);
    assert Fraction(s) == "";
  }

  /** A form payload: field names paired with values, in order. */
  type Entries = seq<(Field, Value)>

  function KeysOf(entries: Entries): (keys: seq<Field>)
    ensures |keys| == |entries|
    ensures forall i :: 0 <= i < |entries| ==> keys[i] == entries[i].0
  {
    seq(|entries|, i requires 0 <= i < |entries| => entries[i].0)
  }

  /**
   * One entry per key of `keys` outside `skip`, in the order of `keys`,
   * each carrying the field's current value.
   */
  function EntriesOf(data: Data, keys: seq<Field>, skip: set<Field>): (r: Entries)
    ensures forall f :: f in KeysOf(r) <==> f in keys && f !in skip
    ensures forall i :: 0 <= i < |r| ==> r[i].1 == data.Get(r[i].0)
    ensures |r| <= |keys|
  {
    if |keys| == 0 then []
    else
      var prefix := EntriesOf(data, keys[..|keys| - 1], skip);
      var k := keys[|keys| - 1];
      assert keys == keys[..|keys| - 1] + [k];
      var r := if k in skip then prefix else prefix + [(k, data.Get(k))];
      assert k !in skip ==> KeysOf(r) == KeysOf(prefix) + [k];
      assert forall f :: f in KeysOf(r) <==> f in KeysOf(prefix) || (f == k && k !in skip);
      r
  }

  /** One more key adds its entry at the end, unless it is skipped. */
  lemma EntriesOfSnoc(data: Data, keys: seq<Field>, k: Field, skip: set<Field>)
    ensures EntriesOf(data, keys + [k], skip) ==
      EntriesOf(data, keys, skip) + (if k in skip then [] else [(k, data.Get(k))])
  {
    assert (keys + [k])[..|keys|] == keys;
  }

  /**
   * The `for…in` loop that appends the form's entries: each key of `keys`
   * in order, except those in `skip`, with the field's current value.
   */
  method CollectEntries(data: Data, keys: seq<Field>, skip: set<Field>) returns (entries: Entries)
    ensures entries == EntriesOf(data, keys, skip)
  {
    entries := [];
    for i := 0 to |keys|
      invariant entries == EntriesOf(data, keys[..i], skip)
    {
      var key := keys[i];
      assert keys[..i + 1] == keys[..i] + [key];
      EntriesOfSnoc(data, keys[..i], key, skip);
      if key !in skip {
        entries := entries + [(key, data.Get(key))];
      }
    }
    assert keys[..|keys|] == keys;
  }

  /** With nothing skipped, the payload names every key once, in the order given. */
  lemma {:induction false} EntriesWithoutSkip(data: Data, keys: seq<Field>)
    ensures KeysOf(EntriesOf(data, keys, {})) == keys
    decreases |keys|
  {
    if |keys| > 0 {
      var init := keys[..|keys| - 1];
      EntriesWithoutSkip(data, init);
      assert keys == init + [keys[|keys| - 1]];
    }
  }
}
