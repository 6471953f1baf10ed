/**
 * The admin product handlers: create, update, delete and gallery
 * replacement. The document store is a map from product id to record,
 * the categories are the set of existing category ids, and every file
 * operation the handlers issue is appended, in order, to a log.
 * Decoding, resizing and WebP encoding are one step, `encodes`, that
 * either writes the file or throws.
 */
module Products {
  import opened Wrappers
  import opened Strings
  import opened Uploads

  /** One uploaded part as multer hands it over. */
  datatype Upload = Upload(originalName: string, mimetype: string, buffer: seq<bv8>)

  /** The product record; prices are in minor units. */
  datatype Product = Product(
    name: string, description: string, richDescription: string,
    image: string, images: seq<string>, brand: string, price: int,
    category: string, countInStock: int, rating: int, numReviews: int,
    isFeatured: bool)

  /** The form fields of a create or update request. */
  datatype ProductBody = ProductBody(
    name: string, description: string, richDescription: string,
    image: string, brand: string, price: int, category: string,
    countInStock: int, rating: int, numReviews: int, isFeatured: bool)

  /** A file-system call issued by a handler. */
  datatype FsOp = Unlink(path: string) | Write(path: string)

  /** At most five files per gallery request. */
  const MaxGallery: nat := 5

  /** The record created from a request body: the saved address, the body's fields and an empty gallery. */
  function NewProduct(body: ProductBody, image: string): (p: Product)
    ensures p.image == image && p.images == []
    ensures p.name == body.name && p.description == body.description && p.richDescription == body.richDescription
    ensures p.brand == body.brand && p.price == body.price && p.category == body.category
    ensures p.countInStock == body.countInStock && p.rating == body.rating && p.numReviews == body.numReviews
    ensures p.isFeatured == body.isFeatured
  {
    Product(body.name, body.description, body.richDescription, image, [], body.brand,
            body.price, body.category, body.countInStock, body.rating, body.numReviews,
            body.isFeatured)
  }

  /** The record after an update: every body field and the image replaced, the gallery kept. */
  function Updated(p: Product, body: ProductBody, image: string): (q: Product)
    ensures q.image == image && q.images == p.images
    ensures q == NewProduct(body, image).(images := p.images)
  {
    p.(name := body.name, description := body.description,
       richDescription := body.richDescription, image := image, brand := body.brand,
       price := body.price, category := body.category, countInStock := body.countInStock,
       rating := body.rating, numReviews := body.numReviews, isFeatured := body.isFeatured)
  }

  /** The early answer of a create request, in the order the route checks it: file type, category, then file presence. */
  function CreateRejection(categories: set<string>, category: string, file: Option<Upload>): (r: Option<Reply>)
    ensures file.Some? && !FileFilter(file.value.mimetype) ==> r == Some(InvalidImageType)
    ensures (file.None? || FileFilter(file.value.mimetype)) && category !in categories ==>
      r == Some(Sent(400, "Invalid Category"))
    ensures category in categories && file.None? ==> r == Some(Sent(400, "No image in the request"))
    ensures r.None? <==> category in categories && file.Some? && FileFilter(file.value.mimetype)
  {
    if file.Some? && !FileFilter(file.value.mimetype) then Some(InvalidImageType)
    else if category !in categories then Some(Sent(400, "Invalid Category"))
    else if file.None? then Some(Sent(400, "No image in the request"))
    else None
  }

  /** The early answer of an update request: file type, then product id, then category. */
  function UpdateRejection(products: map<string, Product>, id: string, categories: set<string>,
                           category: string, file: Option<Upload>): (r: Option<Reply>)
    ensures file.Some? && !FileFilter(file.value.mimetype) ==> r == Some(InvalidImageType)
    ensures (file.None? || FileFilter(file.value.mimetype)) && id !in products ==>
      r == Some(Sent(400, "Invalid Product Id"))
    ensures id in products && category !in categories && (file.None? || FileFilter(file.value.mimetype)) ==>
      r == Some(Sent(400, "Invalid Category"))
    ensures r.None? <==> id in products && category in categories && (file.None? || FileFilter(file.value.mimetype))
  {
    if file.Some? && !FileFilter(file.value.mimetype) then Some(InvalidImageType)
    else if id !in products then Some(Sent(400, "Invalid Product Id"))
    else if category !in categories then Some(Sent(400, "Invalid Category"))
    else None
  }

  /** The address saved for the `i`-th file of a gallery request. */
  function GalleryAddress(basePath: string, files: seq<Upload>, stamps: seq<nat>, i: nat): string
    requires i < |files| && |stamps| == |files|
  {
    Address(basePath, WebpName(files[i].originalName, stamps[i]))
  }

  /** The gallery a successful request saves: one address per file, in upload order. */
  function GalleryAddresses(basePath: string, files: seq<Upload>, stamps: seq<nat>): (addresses: seq<string>)
    requires |stamps| == |files|
    ensures |addresses| == |files|
    ensures forall i :: 0 <= i < |files| ==> addresses[i] == GalleryAddress(basePath, files, stamps, i)
  {
    seq(|files|, i requires 0 <= i < |files| => GalleryAddress(basePath, files, stamps, i))
  }

  /** The addresses of the first `k` gallery files, in order. */
  function AddressesFirst(basePath: string, files: seq<Upload>, stamps: seq<nat>, k: nat): (addresses: seq<string>)
    requires k <= |files| && |stamps| == |files|
    ensures |addresses| == k
  {
    seq(k, i requires 0 <= i < k => GalleryAddress(basePath, files, stamps, i))
  }

  /** One more file adds its address at the end. */
  lemma AddressesFirstSnoc(basePath: string, files: seq<Upload>, stamps: seq<nat>, k: nat)
    requires k < |files| && |stamps| == |files|
    ensures AddressesFirst(basePath, files, stamps, k + 1) ==
      AddressesFirst(basePath, files, stamps, k) + [GalleryAddress(basePath, files, stamps, k)]
  {
  }

  /** The addresses of all the files are the gallery. */
  lemma AddressesFirstAll(basePath: string, files: seq<Upload>, stamps: seq<nat>)
    requires |stamps| == |files|
    ensures AddressesFirst(basePath, files, stamps, |files|) == GalleryAddresses(basePath, files, stamps)
  {
  }

  /** The unlink calls issued for the old gallery, one per entry, in order. */
  function UnlinkAll(basePath: string, images: seq<string>): (ops: seq<FsOp>)
    ensures |ops| == |images|
    ensures forall i :: 0 <= i < |images| ==> ops[i] == Unlink(UnlinkTarget(basePath, images[i]))
  {
    seq(|images|, i requires 0 <= i < |images| => Unlink(UnlinkTarget(basePath, images[i])))
  }

  /** The writes of the first `k` gallery files, in order. */
  function WriteFirst(files: seq<Upload>, stamps: seq<nat>, k: nat): (ops: seq<FsOp>)
    requires k <= |files| && |stamps| == |files|
    ensures |ops| == k
    ensures forall i :: 0 <= i < k ==> ops[i] == Write(UploadDir + WebpName(files[i].originalName, stamps[i]))
  {
    seq(k, i requires 0 <= i < k => Write(UploadDir + WebpName(files[i].originalName, stamps[i])))
  }

  /** One more file adds its write at the end. */
  lemma WriteFirstSnoc(files: seq<Upload>, stamps: seq<nat>, k: nat)
    requires k < |files| && |stamps| == |files|
    ensures WriteFirst(files, stamps, k + 1) ==
      WriteFirst(files, stamps, k) + [Write(UploadDir + WebpName(files[k].originalName, stamps[k]))]
  {
  }

  /** How many files, from the first, the encoder accepts before the first one it throws on. */
  function EncodedPrefix(files: seq<Upload>, encodes: Upload -> bool): (k: nat)
    ensures k <= |files|
    ensures forall i :: 0 <= i < k ==> encodes(files[i])
    ensures k < |files| ==> !encodes(files[k])
  {
    if |files| == 0 || !encodes(files[0]) then 0
    else 1 + EncodedPrefix(files[1..], encodes)
  }

  /**
   * A replacement saves one address per file, so never more than five;
   * each ends in `.webp` and is mapped back, when unlinked, to the file
   * this request wrote for it.
   */
  lemma GalleryReplacementBounded(basePath: string, files: seq<Upload>, stamps: seq<nat>)
    requires |files| <= MaxGallery && |stamps| == |files|
    ensures |GalleryAddresses(basePath, files, stamps)| == |files| <= MaxGallery
    ensures forall i :: 0 <= i < |files| ==>
      var a := GalleryAddresses(basePath, files, stamps)[i];
      a[|a| - |Extension|..] == Extension && UnlinkTarget(basePath, a) == UploadDir + WebpName(files[i].originalName, stamps[i])
  {
    forall i | 0 <= i < |files|
      ensures var a := GalleryAddresses(basePath, files, stamps)[i];
        a[|a| - |Extension|..] == Extension && UnlinkTarget(basePath, a) == UploadDir + WebpName(files[i].originalName, stamps[i])
    {
      StoredAddressShape(basePath, files[i].originalName, stamps[i]);
    }
  }

  /** The address saved for one file ends in `.webp` and is unlinked as the file written for it. */
  lemma StoredAddressShape(basePath: string, originalName: string, now: nat)
    ensures var a := Address(basePath, WebpName(originalName, now));
      a[|a| - |Extension|..] == Extension && UnlinkTarget(basePath, a) == UploadDir + WebpName(originalName, now)
  {
    WebpNameShape(originalName, now);
    AddressShape(basePath, WebpName(originalName, now));
  }

  /** The address of any name ending in `.webp` ends in it too and is unlinked as that name. */
  lemma AddressShape(basePath: string, name: string)
    requires |name| >= |Extension| && name[|name| - |Extension|..] == Extension
    ensures var a := Address(basePath, name);
      a[|a| - |Extension|..] == Extension && UnlinkTarget(basePath, a) == UploadDir + name
  {
    SuffixOfConcat(basePath, name, |Extension|);
    UnlinkRoundTrip(basePath, name);
  }

  /** The last `k` characters of `x + y` are those of `y` when `y` has at least `k`. */
  lemma SuffixOfConcat(x: string, y: string, k: nat)
    requires k <= |y|
    ensures (x + y)[|x + y| - k..] == y[|y| - k..]
  {
  }

  /**
   * The next replacement of a gallery saved by a successful request
   * unlinks exactly the files that request wrote, in the same order.
   */
  lemma NextReplacementUnlinksWritten(basePath: string, files: seq<Upload>, stamps: seq<nat>)
    requires |stamps| == |files|
    ensures var unlinks := UnlinkAll(basePath, GalleryAddresses(basePath, files, stamps));
      var writes := WriteFirst(files, stamps, |files|);
      |unlinks| == |writes| && forall i :: 0 <= i < |writes| ==> unlinks[i].path == writes[i].path
  {
    forall i | 0 <= i < |files|
      ensures UnlinkTarget(basePath, GalleryAddress(basePath, files, stamps, i)) == UploadDir + WebpName(files[i].originalName, stamps[i])
    {
      UnlinkRoundTrip(basePath, WebpName(files[i].originalName, stamps[i]));
    }
  }

  class Catalog {
    var products: map<string, Product>
    var categories: set<string>
    var fsLog: seq<FsOp>

    /** No gallery is longer than five entries. */
    ghost predicate Valid()
      reads this
    {
      forall id :: id in products ==> |products[id].images| <= MaxGallery
    }

    constructor (categories: set<string>)
      ensures Valid()
      ensures this.products == map[] && this.categories == categories && this.fsLog == []
    {
      this.products := map[];
      this.categories := categories;
      this.fsLog := [];
    }

    /**
     * POST /: the part's type is filtered, the category checked, then the
     * file; the image is written under its generated name and the record
     * saved with the public address of that file. `newId` is the id the
     * store assigns.
     */
    method Create(body: ProductBody, file: Option<Upload>, basePath: string, now: nat,
                  newId: string, encodes: Upload -> bool) returns (reply: Reply)
      requires Valid() && newId !in products
      modifies this
      ensures Valid() && categories == old(categories)
      ensures CreateRejection(categories, body.category, file).Some? ==>
        reply == CreateRejection(categories, body.category, file).value
        && products == old(products) && fsLog == old(fsLog)
      ensures CreateRejection(categories, body.category, file).None? && !encodes(file.value) ==>
        reply == NoReply && products == old(products) && fsLog == old(fsLog)
      ensures CreateRejection(categories, body.category, file).None? && encodes(file.value) ==>
        var name := WebpName(file.value.originalName, now);
        && reply.Sent? && reply.status == 200
        && products == old(products)[newId := NewProduct(body, Address(basePath, name))]
        && fsLog == old(fsLog) + [Write(UploadDir + name)]
    {
      var rejection := CreateRejection(categories, body.category, file);
      if rejection.Some? {
        return rejection.value;
      }
      var upload := file.value;
      var name := WebpName(upload.originalName, now);
      if !encodes(upload) {
        return NoReply;
      }
      fsLog := fsLog + [Write(UploadDir + name)];
      products := products[newId := NewProduct(body, Address(basePath, name))];
      reply := Sent(200, "");
    }

    /**
     * PUT /:id: with no file the image becomes the body's `image` field;
     * with a file the old image's unlink is issued first (its failure is
     * only logged), then the new file is written and its address saved.
     */
    method Update(id: string, body: ProductBody, file: Option<Upload>, basePath: string, now: nat,
                  encodes: Upload -> bool) returns (reply: Reply)
      requires Valid()
      modifies this
      ensures Valid() && categories == old(categories)
      ensures UpdateRejection(old(products), id, categories, body.category, file).Some? ==>
        reply == UpdateRejection(old(products), id, categories, body.category, file).value
        && products == old(products) && fsLog == old(fsLog)
      ensures UpdateRejection(old(products), id, categories, body.category, file).None? && file.None? ==>
        reply == Sent(200, "") && fsLog == old(fsLog)
        && products == old(products)[id := Updated(old(products)[id], body, body.image)]
      ensures UpdateRejection(old(products), id, categories, body.category, file).None? && file.Some? ==>
        var oldImage := old(products)[id].image;
        var unlinks := if oldImage != "" then [Unlink(UnlinkTarget(basePath, oldImage))] else [];
        var name := WebpName(file.value.originalName, now);
        if encodes(file.value) then
          && reply == Sent(200, "")
          && fsLog == old(fsLog) + unlinks + [Write(UploadDir + name)]
          && products == old(products)[id := Updated(old(products)[id], body, Address(basePath, name))]
        else
          reply == NoReply && fsLog == old(fsLog) + unlinks && products == old(products)
    {
      var rejection := UpdateRejection(products, id, categories, body.category, file);
      if rejection.Some? {
        return rejection.value;
      }
      var imagePath := body.image;
      if file.Some? {
        var name := WebpName(file.value.originalName, now);
        var current := products[id];
        if current.image != "" {
          fsLog := fsLog + [Unlink(UnlinkTarget(basePath, current.image))];
        }
        if !encodes(file.value) {
          return NoReply;
        }
        fsLog := fsLog + [Write(UploadDir + name)];
        imagePath := Address(basePath, name);
      }
      products := products[id := Updated(products[id], body, imagePath)];
      reply := Sent(200, "");
    }

    /** DELETE /:id: 200 and the record removed when it existed, 404 otherwise. */
    method Delete(id: string) returns (reply: Reply)
      requires Valid()
      modifies this`products
      ensures Valid()
      ensures id in old(products) ==> reply == Sent(200, "the product is deleted!")
      ensures id !in old(products) ==> reply == Sent(404, "product not found!")
      ensures products == old(products) - {id}
    {
      if id in products {
        products := products - {id};
        reply := Sent(200, "the product is deleted!");
      } else {
        reply := Sent(404, "product not found!");
      }
    }

    /**
     * PUT /gallery-images/:id: every old gallery entry gets an unlink, the
     * new files are written one after another in upload order, and the
     * gallery becomes exactly their addresses. A throw from the encoder
     * leaves the record as it was, with the files already written on disk.
     * `stamps[i]` is the clock reading taken for the `i`-th file.
     */
    method UpdateGallery(id: string, files: seq<Upload>, basePath: string, stamps: seq<nat>,
                         encodes: Upload -> bool) returns (reply: Reply)
      requires Valid() && |files| <= MaxGallery && |stamps| == |files|
      modifies this`products, this`fsLog
      ensures Valid()
      ensures (exists i :: 0 <= i < |files| && !FileFilter(files[i].mimetype)) ==>
        reply == InvalidImageType && products == old(products) && fsLog == old(fsLog)
      ensures (forall i :: 0 <= i < |files| ==> FileFilter(files[i].mimetype)) && id !in old(products) ==>
        reply == Sent(400, "Invalid Product Id") && products == old(products) && fsLog == old(fsLog)
      ensures (forall i :: 0 <= i < |files| ==> FileFilter(files[i].mimetype)) && id in old(products) ==>
        var k := EncodedPrefix(files, encodes);
        && fsLog == old(fsLog) + UnlinkAll(basePath, old(products)[id].images) + WriteFirst(files, stamps, k)
        && (k == |files| ==>
              reply == Sent(200, "")
              && products == old(products)[id := old(products)[id].(images := GalleryAddresses(basePath, files, stamps))])
        && (k < |files| ==> reply == NoReply && products == old(products))
    {
      if exists i :: 0 <= i < |files| && !FileFilter(files[i].mimetype) {
        return InvalidImageType;
      }
      if id !in products {
        return Sent(400, "Invalid Product Id");
      }
      UnlinkGallery(basePath, products[id].images);
      var written := WriteGallery(files, basePath, stamps, encodes);
      if written.None? {
        return NoReply;
      }
      var paths := written.value;
      products := products[id := products[id].(images := paths)];
      reply := Sent(200, "");
    }

    /** The `forEach` over the old gallery: one unlink per entry, in order. */
    method UnlinkGallery(basePath: string, images: seq<string>)
      modifies this`fsLog
      ensures fsLog == old(fsLog) + UnlinkAll(basePath, images)
    {
      for j := 0 to |images|
        invariant fsLog == old(fsLog) + UnlinkAll(basePath, images[..j])
      {
        fsLog := fsLog + [Unlink(UnlinkTarget(basePath, images[j]))];
        assert UnlinkAll(basePath, images[..j + 1]) == UnlinkAll(basePath, images[..j]) + [Unlink(UnlinkTarget(basePath, images[j]))];
      }
      assert images[..|images|] == images;
    }

    /**
     * The `for…of` over the uploaded files: each is encoded and written in
     * turn and its address collected; the first encoder throw stops the
     * loop with the earlier files already written.
     */
    method WriteGallery(files: seq<Upload>, basePath: string, stamps: seq<nat>, encodes: Upload -> bool)
      returns (paths: Option<seq<string>>)
      requires |stamps| == |files|
      modifies this`fsLog
      ensures fsLog == old(fsLog) + WriteFirst(files, stamps, EncodedPrefix(files, encodes))
      ensures paths.Some? <==> EncodedPrefix(files, encodes) == |files|
      ensures paths.Some? ==> paths.value == GalleryAddresses(basePath, files, stamps)
    {
      var collected: seq<string> := [];
      var i := 0;
      while i < |files|
        invariant 0 <= i <= |files|
        invariant forall j :: 0 <= j < i ==> encodes(files[j])
        invariant collected == AddressesFirst(basePath, files, stamps, i)
        invariant fsLog == old(fsLog) + WriteFirst(files, stamps, i)
      {
        if !encodes(files[i]) {
          assert EncodedPrefix(files, encodes) == i by {
            EncodedPrefixAt(files, encodes, i);
          }
          return None;
        }
        var name := WebpName(files[i].originalName, stamps[i]);
        assert WriteFirst(files, stamps, i + 1) == WriteFirst(files, stamps, i) + [Write(UploadDir + name)] by {
          WriteFirstSnoc(files, stamps, i);
        }
        assert AddressesFirst(basePath, files, stamps, i + 1) == collected + [Address(basePath, name)] by {
          AddressesFirstSnoc(basePath, files, stamps, i);
        }
        fsLog := fsLog + [Write(UploadDir + name)];
        collected := collected + [Address(basePath, name)];
        i := i + 1;
      }
      assert EncodedPrefix(files, encodes) == |files| by {
        EncodedPrefixAt(files, encodes, |files|);
      }
      assert collected == GalleryAddresses(basePath, files, stamps) by {
        AddressesFirstAll(basePath, files, stamps);
      }
      return Some(collected);
    }
  }

  /** The encoded prefix stops exactly at the first file the encoder throws on. */
  lemma {:induction false} EncodedPrefixAt(files: seq<Upload>, encodes: Upload -> bool, i: nat)
    requires i <= |files|
    requires forall j :: 0 <= j < i ==> encodes(files[j])
    requires i < |files| ==> !encodes(files[i])
    ensures EncodedPrefix(files, encodes) == i
    decreases i
  {
    if i > 0 {
      EncodedPrefixAt(files[1..], encodes, i - 1);
    }
  }
}
