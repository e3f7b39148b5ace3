/** The storefront's static records (src/data/products.ts, src/data/news.ts) and their seed values. */
module Catalog {
  import opened Wrappers

  /** A product of the catalogue. Prices and stock are whole currency units and whole tubs.
      An absent `featured` flag reads as not featured. */
  datatype Product = Product(
    id: string,
    name: string,
    price: int,
    wholesalePrice: int,
    image: string,
    description: string,
    category: string,
    stock: int,
    featured: bool,
    minWholesaleQty: Option<int>)

  /** The four kinds of news item. */
  datatype NewsCategory = NewFlavor | Promo | Event | Update

  /** The category as the data spells it. */
  function CategoryName(c: NewsCategory): string
  {
    match c
    case NewFlavor => "new-flavor"
    case Promo => "promo"
    case Event => "event"
    case Update => "update"
  }

  datatype NewsItem = NewsItem(
    id: string,
    title: string,
    excerpt: string,
    content: string,
    date: string,
    category: NewsCategory,
    image: Option<string>)

  function Products(): seq<Product>
  {
    [ Product("1", "Classic Vanilla", 149, 120, "product-vanilla.png",
        "Creamy Madagascar vanilla with caramel swirls. A timeless classic.",
        "Classic", 50, true, Some(10)),
      Product("2", "Belgian Chocolate", 179, 145, "product-chocolate.png",
        "Rich Belgian dark chocolate with chocolate chips. For true chocolate lovers.",
        "Classic", 35, true, Some(10)),
      Product("3", "Fresh Strawberry", 159, 130, "product-strawberry.png",
        "Made with real strawberries for a fruity, refreshing experience.",
        "Fruity", 45, true, Some(10)),
      Product("4", "Alphonso Mango", 189, 155, "product-mango.png",
        "Premium Alphonso mangoes blended to perfection. Summer in a scoop.",
        "Fruity", 30, true, Some(10)) ]
  }

  function NewsItems(): seq<NewsItem>
  {
    [ NewsItem("1", "Introducing Mango Passion Fusion",
        "Our newest creation combines tropical mangoes with tangy passion fruit.",
        "We are excited to announce our latest flavor innovation - Mango Passion Fusion!",
        "2024-12-28", NewFlavor, Some("photo-1501443762994-82bd5dace89a")),
      NewsItem("2", "New Year Special: 20% Off All Orders",
        "Celebrate 2025 with sweet savings on all our premium ice creams.",
        "Ring in the new year with Saranya Ice Creams!",
        "2024-12-30", Promo, Some("photo-1563805042-7684c019e1cb")),
      NewsItem("3", "Extended Delivery Hours",
        "We now deliver until 11 PM to satisfy your late-night cravings.",
        "Great news for night owls! We have extended our delivery hours until 11 PM every day.",
        "2024-12-25", Update, Some("photo-1497534547324-0ebb3f052e88")),
      NewsItem("4", "Ice Cream Making Workshop",
        "Join us for a hands-on experience at our flagship store.",
        "Learn the art of ice cream making with our master chefs!",
        "2024-12-20", Event, Some("photo-1488477181946-6428a0291777")) ]
  }
}
