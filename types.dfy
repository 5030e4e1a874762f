/**
 * The shared records of the TypeScript storefront (src/types/index.ts).
 *
 * Money is held in integer cents and a rating in integer hundredths of a
 * star, so every comparison and sum below is exact.
 */
module Types {

  datatype Option<+T> = None | Some(value: T) {
    function GetOr(default: T): T {
      match this
      case Some(v) => v
      case None => default
    }
  }

  /** A catalog entry. Optional fields of the source are `Option`s. */
  datatype Product = Product(
    id: string,
    name: string,
    price: int,                       // cents
    originalPrice: Option<int>,       // cents
    category: string,
    image: string,
    images: Option<seq<string>>,
    description: string,
    specifications: Option<map<string, string>>,
    stock: int,
    rating: Option<int>,              // hundredths of a star
    reviews: Option<int>
  )

  /** One line of the cart: a full product snapshot and a quantity. */
  datatype CartItem = CartItem(product: Product, quantity: int)

  /** `FilterOptions`: every criterion may be missing. */
  datatype FilterOptions = FilterOptions(
    category: Option<string>,
    priceRange: Option<(int, int)>,
    keyword: Option<string>
  )

  const NoFilters: FilterOptions := FilterOptions(None, None, None)

  /** The closed set of `SortOption` values. */
  datatype SortOption = Default | PriceAsc | PriceDesc | Rating

  datatype PaginationState = PaginationState(currentPage: int, pageSize: int, totalItems: int)
}
