/** The `/api/produk` endpoints of the standalone server: a package-level
    slice of products handled by `getProdukByID`, `updateProduk`,
    `deleteProduk` and the POST branch. Path parsing and JSON decoding are
    given as their outcomes (`None` for a failure). */
module ProdukApi {
  import opened Wrappers
  import opened IdList

  /** The fields of a `Produk` other than its id. */
  datatype ProdukFields = ProdukFields(nama: string, harga: int, stok: int)

  type Produk = Entry<ProdukFields>

  /** The texts of this endpoint. */
  const Texts := Messages("Invalid Produk ID", "Produk tidak ditemukan", "Produk berhasil dihapus")

  /** The slice the server starts with; its ids start at 0. */
  function InitialProduk(): seq<Produk>
  {
    [ Entry(0, ProdukFields("Indomie Godog", 3500, 10)),
      Entry(1, ProdukFields("Vit 1000ml", 3000, 40)),
      Entry(2, ProdukFields("Kecap", 12000, 20)) ]
  }

  /** GET `/api/produk/{id}`: the first product with the id, 404 when there is
      none, 400 when the id is not a number. */
  function GetProdukByID(produk: seq<Produk>, id: Option<int>): (r: Response<ProdukFields>)
    ensures id.None? ==> r == BadRequest("Invalid Produk ID")
    ensures id.Some? ==>
      (r == NotFound("Produk tidak ditemukan") <==> forall j :: 0 <= j < |produk| ==> produk[j].id != id.value)
    ensures id.Some? && FirstIndex(produk, id.value).Some? ==>
      r == Json(produk[FirstIndex(produk, id.value).value])
  {
    HandleGet(Texts, produk, id)
  }

  /** PUT `/api/produk/{id}`: only the first matching product is replaced,
      with its id forced to the path id; nothing else changes. */
  function UpdateProduk(produk: seq<Produk>, id: Option<int>, body: Option<Produk>)
    : (r: (seq<Produk>, Response<ProdukFields>))
    ensures id.None? ==> r == (produk, BadRequest("Invalid Produk ID"))
    ensures id.Some? && body.None? ==> r == (produk, BadRequest("Invalid request"))
    ensures |r.0| == |produk|
    ensures id.Some? && body.Some? ==> r.0 == Replace(produk, id.value, body.value)
    ensures id.Some? && body.Some? && FirstIndex(produk, id.value).Some? ==>
      r.1 == Json(body.value.(id := id.value))
    ensures id.Some? && body.Some? && FirstIndex(produk, id.value).None? ==> r == (produk, Silent)
    ensures id.Some? && body.Some? && r.1.Json? ==> Get(r.0, id.value) == Some(r.1.entry)
  {
    var r := HandleUpdate(Texts, produk, id, body);
    if id.Some? && body.Some? && FirstIndex(produk, id.value).Some? then
      GetAfterReplace(produk, id.value, body.value);
      r
    else
      r
  }

  /** DELETE `/api/produk/{id}`: the first matching product is removed and the
      rest keep their order. */
  function DeleteProduk(produk: seq<Produk>, id: Option<int>): (r: (seq<Produk>, Response<ProdukFields>))
    ensures id.None? ==> r == (produk, BadRequest("Invalid Produk ID"))
    ensures id.Some? ==> r.0 == Remove(produk, id.value)
    ensures r.1 == Message("Produk berhasil dihapus") <==> |r.0| == |produk| - 1
    ensures id.Some? && FirstIndex(produk, id.value).None? ==> r == (produk, Silent)
  {
    HandleDelete(Texts, produk, id)
  }

  /** POST `/api/produk`: the decoded product is appended with id `len + 1`. */
  function PostProduk(produk: seq<Produk>, body: Option<Produk>): (r: (seq<Produk>, Response<ProdukFields>))
    ensures body.None? ==> r == (produk, BadRequest("Invalid request"))
    ensures body.Some? ==> r.0 == Append(produk, body.value) && r.1 == Created(r.0[|produk|])
  {
    HandleCreate(produk, body)
  }

  /** `len + 1` does not keep ids unique: from the initial slice, a create
      (id 4), a delete of id 0 and another create leave two products with
      id 4, and a lookup of 4 no longer reaches the newest one. */
  lemma IdCollision(a: ProdukFields, b: ProdukFields)
    ensures var s1 := PostProduk(InitialProduk(), Some(Entry(0, a))).0;
      var s2 := DeleteProduk(s1, Some(0)).0;
      var s3 := PostProduk(s2, Some(Entry(0, b))).0;
      && |s3| == 4 && s3[2].id == 4 && s3[3].id == 4
      && GetProdukByID(s3, Some(4)) == Json(Entry(4, a))
  {
    var s1 := PostProduk(InitialProduk(), Some(Entry(0, a))).0;
    assert FirstIndex(s1, 0) == Some(0);
    var s2 := DeleteProduk(s1, Some(0)).0;
    assert s2 == s1[1..];
    var s3 := PostProduk(s2, Some(Entry(0, b))).0;
    FirstIndexAt(s3, 4, 2);
  }
}
