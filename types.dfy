/** Entities shared by the catalog: products, the optional filters of the
    products API helper, the exception every failed request is reported with,
    and what a `catch` block can receive. */
module Types {

  datatype Option<+T> = None | Some(value: T)

  datatype Result<+T, +E> = Success(value: T) | Failure(error: E)

  /** Numeric codes of the `Gender` enum. */
  const UNISEX: int := 0
  const MALE: int := 1
  const FEMALE: int := 2

  /** A catalog product. `basePrice` is a JS number in the source; here it is an
      integer amount (for instance in cents). `createdAt` is an ISO-8601 string
      in the source; here it is the integer timestamp `new Date(createdAt)`
      denotes. `gender` is the raw number, so codes outside the enum can occur. */
  datatype Product = Product(
    id: string,
    name: string,
    description: string,
    slug: string,
    categoryId: string,
    gender: int,
    basePrice: int,
    isActive: bool,
    isFeatured: bool,
    createdAt: int,
    images: seq<string>,
    categoryName: string)

  /** `ProductFilters`: every field is optional. */
  datatype ProductFilters = ProductFilters(
    query: Option<string>,
    category: Option<string>,
    gender: Option<string>,
    maxPrice: Option<int>)

  /** `ApiException(message, status, statusText)`. */
  datatype ApiException = ApiException(message: string, status: int, statusText: string)

  /** A value thrown inside a `try` block: an `ApiException`, another `Error`
      (which has a message), or something that is not an `Error` at all. */
  datatype Thrown = Api(exception: ApiException) | OtherError(message: string) | NotAnError

  /** HTTP status and status text every rewrapped failure carries. */
  const INTERNAL_SERVER_ERROR: string := "Internal Server Error"

  /** The `catch` clause of the products API: an `ApiException` propagates
      unchanged, anything else becomes a 500 whose message is the error's
      message, or `fallback` when the thrown value is not an `Error`. */
  function Rewrap(t: Thrown, fallback: string): (e: ApiException)
    ensures t.Api? ==> e == t.exception
    ensures !t.Api? ==> e.status == 500 && e.statusText == INTERNAL_SERVER_ERROR
    ensures t.OtherError? ==> e.message == t.message
    ensures t.NotAnError? ==> e.message == fallback
  {
    match t
    case Api(x) => x
    case OtherError(m) => ApiException(m, 500, INTERNAL_SERVER_ERROR)
    case NotAnError => ApiException(fallback, 500, INTERNAL_SERVER_ERROR)
  }
}
