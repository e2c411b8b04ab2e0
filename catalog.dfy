/** The records the catalog service passes between its layers. */
module Catalog {

  /** A row of the Products table. `price` is a C# `double`; only its
      comparisons matter here, so it is a real. */
  datatype Product = Product(
    productId: int,
    name: string,
    description: string,
    quantity: int,
    brandId: int,
    categoryId: int,
    price: real)

  /** The repository's transfer record: a product together with the names
      of its brand and its category. */
  datatype ProductRepoModel = ProductRepoModel(
    productId: int,
    name: string,
    description: string,
    quantity: int,
    brandId: int,
    brand: string,
    categoryId: int,
    category: string,
    price: real)

  /** A row of the Brands or the Categories table: an externally assigned
      id (the primary key) and a name. */
  datatype NamedRow = NamedRow(id: int, name: string)

  /** The catalog metadata: every brand name and every category name. */
  datatype ProductInfo = ProductInfo(brands: seq<string>, categories: seq<string>)

  /** A product as the controller receives it in a create request. */
  datatype ProductDto = ProductDto(productId: int, name: string, description: string, quantity: int)
}
