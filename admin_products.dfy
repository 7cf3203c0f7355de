/** The product admin handlers: where a product image may live, removing
    an old image, and the add and edit forms. */
module AdminProducts {
  import opened Common
  import opened Products

  /** The path separator (POSIX). */
  const Sep := "/"

  /** The public prefix of product images. */
  const ImagesRoute := "/images/"

  /** `resolveImagePath`: a text starting with `/images/` is resolved
      against the image directory, and kept only when the result is the
      directory or lies inside it. Anything else, a missing value, or a
      value that is not text, gives null. `resolve` is `path.resolve`; the
      containment holds whatever it returns. */
  function ResolveImagePath(imagePath: Option<string>, imageDir: string, resolve: (string, string) -> string): (r: Option<string>)
    ensures !Truthy(imagePath) ==> r.None?
    ensures Truthy(imagePath) && !StartsWith(imagePath.value, ImagesRoute) ==> r.None?
    ensures r.Some? ==> r.value == imageDir || StartsWith(r.value, imageDir + Sep)
    ensures r.Some? ==> r.value == resolve(imageDir, imagePath.value[|ImagesRoute|..])
  {
    if !Truthy(imagePath) || !StartsWith(imagePath.value, ImagesRoute) then None
    else
      var target := resolve(imageDir, imagePath.value[|ImagesRoute|..]);
      if !StartsWith(target, imageDir + Sep) && target != imageDir then None else Some(target)
  }

  /** Two paths that do not start with `/images/` and are never resolved:
      an absolute file path and the image route without its leading slash.
      (The general rule is the second `ensures` of `ResolveImagePath`.) */
  lemma OutsidePathsRejected(imageDir: string, resolve: (string, string) -> string)
    ensures ResolveImagePath(Some("/etc/passwd"), imageDir, resolve).None?
    ensures ResolveImagePath(Some("images/a.png"), imageDir, resolve).None?
  {
    assert "/etc/passwd"[1] != ImagesRoute[1];
    assert "images/a.png"[0] != ImagesRoute[0];
  }

  /** The image files on disk. */
  class ImageStore {
    const imageDir: string
    var files: set<string>

    constructor (imageDir: string, files: set<string>)
      ensures this.imageDir == imageDir && this.files == files
    {
      this.imageDir := imageDir;
      this.files := files;
    }

    /** `deleteImageIfExists`: nothing happens unless the path resolves
        inside the image directory; then the file is unlinked, a missing
        file being no error. A failed unlink is only logged. */
    method DeleteImageIfExists(imagePath: Option<string>, resolve: (string, string) -> string, unlinkFails: bool)
      modifies this`files
      ensures var t := ResolveImagePath(imagePath, imageDir, resolve);
        files == if t.Some? && !unlinkFails then old(files) - {t.value} else old(files)
      ensures forall f :: f in old(files) && f !in files ==> f == imageDir || StartsWith(f, imageDir + Sep)
    {
      var target := ResolveImagePath(imagePath, imageDir, resolve);
      if target.None? {
        return;
      }
      if !unlinkFails {
        files := files - {target.value};
      }
    }
  }

  /** The fields of the product form. */
  datatype ProductForm = ProductForm(
    name: Option<string>,
    productType: Option<string>,
    price: Option<string>,
    quantity: Option<string>,
    information: Option<string>,
    currentImage: Option<string>)

  /** The answer of the add and edit handlers. */
  datatype AdminReply = MissingFields | RedirectToList | ServerError

  /** All four required fields are filled in. */
  predicate HasRequiredFields(form: ProductForm) {
    Truthy(form.name) && Truthy(form.productType) && Truthy(form.price) && Truthy(form.quantity)
  }

  /** The image of the saved product: the uploaded file, else the current
      image from the form, else none. */
  function ChooseImage(uploaded: Option<string>, currentImage: Option<string>): (r: Option<string>)
    ensures uploaded.Some? ==> r == Some(ImagesRoute + uploaded.value)
    ensures uploaded.None? && Truthy(currentImage) ==> r == currentImage
    ensures uploaded.None? && !Truthy(currentImage) ==> r.None?
  {
    if uploaded.Some? then Some(ImagesRoute + uploaded.value)
    else if Truthy(currentImage) then currentImage
    else None
  }

  /** The product the handlers save; `number` and `count` stand for
      `Number(...)` on the price and quantity fields. */
  function FormProduct(form: ProductForm, image: Option<string>,
                       number: Option<string> -> real, count: Option<string> -> int): Product
  {
    Product(form.name.GetOr(""), form.productType, number(form.price), count(form.quantity), form.information, image)
  }

  /** `postAdd`: a form missing a required field gives 400 and creates
      nothing; otherwise the product is created with the chosen image. */
  method PostAdd(form: ProductForm, uploaded: Option<string>, products: ProductTable,
                 number: Option<string> -> real, count: Option<string> -> int, createFails: bool)
    returns (reply: AdminReply, ghost id: Id)
    requires products.Valid()
    modifies products
    ensures products.Valid()
    ensures !HasRequiredFields(form) ==> reply == MissingFields
    ensures reply != RedirectToList ==> products.rows == old(products.rows)
    ensures reply == RedirectToList <==> HasRequiredFields(form) && !createFails
    ensures reply == RedirectToList ==> id !in old(products.rows)
    ensures reply == RedirectToList ==>
      products.rows == old(products.rows)[id := Stored(FormProduct(form, ChooseImage(uploaded, form.currentImage), number, count))]
  {
    id := 1;
    if !HasRequiredFields(form) {
      return MissingFields, id;
    }
    var img := ChooseImage(uploaded, form.currentImage);
    if createFails {
      return ServerError, id;
    }
    var newId := products.Create(FormProduct(form, img, number, count));
    id := newId;
    reply := RedirectToList;
  }

  /** Whether `postEdit` removes the old image: only when a new file was
      uploaded and the form named a different current image. */
  predicate ReplacesImage(uploaded: Option<string>, currentImage: Option<string>) {
    uploaded.Some? && Truthy(currentImage) && currentImage != ChooseImage(uploaded, currentImage)
  }

  /** Without an upload the old image is never removed, and an upload
      under the same name as the current image keeps it. */
  lemma ReplacesOnlyOnUpload(uploaded: Option<string>, currentImage: Option<string>)
    ensures uploaded.None? ==> !ReplacesImage(uploaded, currentImage)
    ensures uploaded.Some? && currentImage == Some(ImagesRoute + uploaded.value) ==> !ReplacesImage(uploaded, currentImage)
  {
  }

  /** `postEdit`: the product gets the form's fields and the chosen image
      (without any required-field check); then, when a new file replaced
      a different current image, the old one is deleted. A failed update
      gives 500 and deletes nothing. */
  method PostEdit(id: Id, form: ProductForm, uploaded: Option<string>, products: ProductTable, images: ImageStore,
                  number: Option<string> -> real, count: Option<string> -> int,
                  resolve: (string, string) -> string, updateFails: bool, unlinkFails: bool)
    returns (reply: AdminReply)
    requires products.Valid()
    modifies products`rows, images`files
    ensures products.Valid()
    ensures reply == RedirectToList <==> !updateFails
    ensures reply == ServerError ==> products.rows == old(products.rows) && images.files == old(images.files)
    ensures reply == RedirectToList ==>
      products.rows == if id in old(products.rows)
        then old(products.rows)[id := Stored(FormProduct(form, ChooseImage(uploaded, form.currentImage), number, count))]
        else old(products.rows)
    ensures !ReplacesImage(uploaded, form.currentImage) ==> images.files == old(images.files)
    ensures reply == RedirectToList && ReplacesImage(uploaded, form.currentImage) ==>
      var t := ResolveImagePath(form.currentImage, images.imageDir, resolve);
      images.files == if t.Some? && !unlinkFails then old(images.files) - {t.value} else old(images.files)
  {
    var img := ChooseImage(uploaded, form.currentImage);
    if updateFails {
      return ServerError;
    }
    var _ := products.Update(id, FormProduct(form, img, number, count));
    if uploaded.Some? && Truthy(form.currentImage) && form.currentImage != img {
      images.DeleteImageIfExists(form.currentImage, resolve, unlinkFails);
    }
    reply := RedirectToList;
  }
}
