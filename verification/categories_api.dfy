/** The `/api/categories` handlers: the same four slice operations as the
    product endpoints, on the `Categories` slice passed in by the router. */
module CategoriesApi {
  import opened Wrappers
  import opened IdList

  /** The fields of a `Categories` record other than its id. */
  datatype CategoryFields = CategoryFields(nama: string, harga: int, stok: int)

  type Category = Entry<CategoryFields>

  /** The texts of this endpoint. */
  const Texts := Messages("Invalid Categories ID", "Categories tidak ditemukan", "Categories berhasil dihapus")

  /** `DataCategories`, the slice the server starts with; its ids start at 1. */
  function DataCategories(): seq<Category>
  {
    [ Entry(1, CategoryFields("Indomie Godog", 3500, 10)),
      Entry(2, CategoryFields("Vit 1000ml", 3000, 40)),
      Entry(3, CategoryFields("Kecap", 12000, 20)) ]
  }

  /** `GetCategoriesByID`: the first category with the id, 404 when there is
      none, 400 when the id is not a number. */
  function GetCategoriesByID(categories: seq<Category>, id: Option<int>): (r: Response<CategoryFields>)
    ensures id.None? ==> r == BadRequest("Invalid Categories ID")
    ensures id.Some? ==>
      var absent := forall j :: 0 <= j < |categories| ==> categories[j].id != id.value;
      (r == NotFound("Categories tidak ditemukan") <==> absent)
    ensures id.Some? && FirstIndex(categories, id.value).Some? ==>
      r == Json(categories[FirstIndex(categories, id.value).value])
  {
    HandleGet(Texts, categories, id)
  }

  /** `UpdateCategories`: only the first matching category is replaced, with
      its id forced to the path id; a non-matching id changes nothing. */
  function UpdateCategories(categories: seq<Category>, id: Option<int>, body: Option<Category>)
    : (r: (seq<Category>, Response<CategoryFields>))
    ensures id.None? ==> r == (categories, BadRequest("Invalid Categories ID"))
    ensures id.Some? && body.None? ==> r == (categories, BadRequest("Invalid request"))
    ensures |r.0| == |categories|
    ensures id.Some? && body.Some? ==> r.0 == Replace(categories, id.value, body.value)
    ensures id.Some? && (forall j :: 0 <= j < |categories| ==> categories[j].id != id.value)
      ==> r.0 == categories
    ensures id.Some? && body.Some? && FirstIndex(categories, id.value).Some? ==>
      r.1 == Json(body.value.(id := id.value))
    ensures id.Some? && body.Some? && FirstIndex(categories, id.value).None? ==> r == (categories, Silent)
  {
    HandleUpdate(Texts, categories, id, body)
  }

  /** `DeleteCategories`: the first matching category is removed, the others
      keep their order; a non-matching id changes nothing. */
  function DeleteCategories(categories: seq<Category>, id: Option<int>)
    : (r: (seq<Category>, Response<CategoryFields>))
    ensures id.None? ==> r == (categories, BadRequest("Invalid Categories ID"))
    ensures id.Some? ==> r.0 == Remove(categories, id.value)
    ensures id.Some? && (forall j :: 0 <= j < |categories| ==> categories[j].id != id.value)
      ==> r == (categories, Silent)
    ensures id.Some? && FirstIndex(categories, id.value).Some? ==>
      r.1 == Message("Categories berhasil dihapus")
  {
    HandleDelete(Texts, categories, id)
  }

  /** `PostCategories`: the decoded category is appended with id `len + 1`. */
  function PostCategories(categories: seq<Category>, body: Option<Category>)
    : (r: (seq<Category>, Response<CategoryFields>))
    ensures body.None? ==> r == (categories, BadRequest("Invalid request"))
    ensures body.Some? ==> r.0 == Append(categories, body.value)
    ensures body.Some? ==> r.1 == Created(Entry(|categories| + 1, body.value.fields))
  {
    HandleCreate(categories, body)
  }

  /** Starting from `DataCategories`, deleting id 1 and creating a category
      hands out id 3, which the old "Kecap" record still holds; the lookup of
      3 keeps returning the old record. */
  lemma IdCollision(c: CategoryFields)
    ensures var s1 := DeleteCategories(DataCategories(), Some(1)).0;
      var s2 := PostCategories(s1, Some(Entry(0, c))).0;
      && |s2| == 3 && s2[1].id == 3 && s2[2].id == 3
      && GetCategoriesByID(s2, Some(3)) == Json(DataCategories()[2])
  {
    assert FirstIndex(DataCategories(), 1) == Some(0);
    var s1 := DeleteCategories(DataCategories(), Some(1)).0;
    assert s1 == DataCategories()[1..];
    var s2 := PostCategories(s1, Some(Entry(0, c))).0;
    FirstIndexAt(s2, 3, 1);
  }
}
