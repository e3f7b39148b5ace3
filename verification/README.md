# Saranya Ice Creams storefront — a Dafny model of its logic

Saranya Ice Creams is a React storefront, mostly presentational. This project models and proves the small pieces of logic inside it:

- **Notification store** (`src/contexts/NotificationContext.tsx`). An ordered list of notifications, newest first. It supports add (prepend), mark one read, mark all read, clear, and a derived unread count.
  - Modelled as the class `NotificationStore`, with one `seq` field.
  - Its methods are specified by pure functions on lists.
- **Theme store** (`src/contexts/ThemeContext.tsx`). It has four parts:
  - a light/dark mode;
  - a four-slot colour palette;
  - their restoration from durable storage at load;
  - two effects that mirror every change into storage, the document root's class list and its style variables.

  The browser state is held in fields of the class `ThemeProvider`. `hexToHsl` is modelled separately in module `ColorConversion`. It takes a strict six-digit hex colour, optionally with `#`, letters in either case. This is the six-digit form of the CSS hex colour notation, with the `#` made optional. Anything else gives the fallback `"0 0% 0%"`. The RGB to HSL formula is computed over exact reals.
- **Product page** (`src/pages/ProductDetail.tsx`):
  - retail/wholesale pricing: 15% off from 10 units;
  - a quantity stepper kept within `[1, stock]`;
  - the loop that calls the cart's `addToCart` once per unit.
- **Checkout page** (`src/pages/Checkout.tsx`):
  - shipping is free from a subtotal of 500, and 50 below it;
  - the grand total;
  - which of the three views renders;
  - the order of state updates on submit.
- **Admin tables** (`src/pages/admin/AdminProducts.tsx`, `AdminOrders.tsx`, `AdminNews.tsx`):
  - a case-insensitive substring search over two fields of each entry, shared as module `SearchFilter`;
  - the stock highlight and featured badge;
  - the order status colour and the capitalised status label.
- **Home page lists** (`src/components/home/FeaturedProducts.tsx`, `LatestNews.tsx`):
  - the first four featured products;
  - the first three news items;
  - the category colour, the category label and the image guard.

Supporting modules:

- `Wrappers`: `Option` and `Result`.
- `Hooks`: the provider guard shared by `useNotifications` and `useTheme`.
- `Text`: case mapping, `includes`, first-occurrence `replace`, and the decimal rendering of numbers.
- `Seqs`: an order-preserving `filter`, the subsequence relation, and `slice(0, n)`.
- `Catalog`: the product and news records, with the seed data of `src/data/products.ts` and `src/data/news.ts`.

The checkout page shows the text "Free shipping on orders above ₹500" (`src/pages/Checkout.tsx:282`). The rule it applies is `totalPrice >= 500`, so a subtotal of exactly 500 also ships free. The model follows the rule, and `Checkout.GrandTotalThreshold` pins the boundary.

The initial palette follows the code. A missing or unparseable stored palette always gives the light defaults, whatever the mode (`src/contexts/ThemeContext.tsx:77-87`). It does not give the defaults of the current mode, which `resetColors` uses. `ThemeContext.LoadFallbackIgnoresMode` states the difference.

## Model

| member | source | states |
|---|---|---|
| NotificationContext.UnreadCount | src/contexts/NotificationContext.tsx:53 | the unread count never exceeds the list's length and is zero exactly when every entry is read |
| NotificationContext.UnreadCountAppend | src/contexts/NotificationContext.tsx:53 | the unread count of two lists joined is the sum of their counts |
| NotificationContext.InitialState | src/contexts/NotificationContext.tsx:23-48 | the seed list has three entries with ids "1", "2", "3", all unread (count 3), with creation times strictly decreasing |
| Text.NatToStringDecimal | src/contexts/NotificationContext.tsx:58 | the id `Date.now().toString()` is a non-empty string of decimal digits, with no leading zero unless the clock reads 0, denoting the clock value |
| NotificationContext.AddNotificationEffect | src/contexts/NotificationContext.tsx:55-63 | adding yields a list one longer; its head is a fresh unread entry with the given title, message and type, created now; its tail is the previous list; the unread count grows by exactly one |
| NotificationContext.MarkAsReadEffect | src/contexts/NotificationContext.tsx:65-69 | marking an id keeps length and order, sets `read` exactly on the entries with that id (or already read), and changes no other field |
| NotificationContext.MarkAsReadMissingId | src/contexts/NotificationContext.tsx:65-69 | marking an id no entry carries leaves the list unchanged |
| NotificationContext.MarkAsReadUnreadCount | src/contexts/NotificationContext.tsx:53-69 | marking an id lowers the unread count by exactly the number of unread entries with that id |
| NotificationContext.MarkAllAsReadEffect | src/contexts/NotificationContext.tsx:71-73 | marking all read leaves no unread entry and keeps length, order and every other field |
| NotificationContext.MarkAllAsReadIdempotent | src/contexts/NotificationContext.tsx:71-73 | marking all read twice equals marking once |
| NotificationContext.MarkSecondSeedRead | src/contexts/NotificationContext.tsx:23-69 | on the seed list, marking "2" read takes the count from 3 to 2 and leaves the other two entries as they were |
| NotificationContext.NotificationStore.constructor | src/contexts/NotificationContext.tsx:51 | the store starts with the seed list for the current clock |
| NotificationContext.NotificationStore.AddNotification | src/contexts/NotificationContext.tsx:55-63 | the list becomes the fresh entry in front of the old list, and the unread count rises by one |
| NotificationContext.NotificationStore.MarkAsRead | src/contexts/NotificationContext.tsx:65-69 | the list becomes the old list with that id marked read, and the unread count never rises |
| NotificationContext.NotificationStore.MarkAllAsRead | src/contexts/NotificationContext.tsx:71-73 | the list becomes the old list all marked read, and the unread count is 0 |
| NotificationContext.NotificationStore.ClearNotifications | src/contexts/NotificationContext.tsx:75-77 | the list is empty and the unread count is 0 |
| NotificationContext.UseNotifications | src/contexts/NotificationContext.tsx:93-99 | without a provider the hook fails with its error message; with one it returns that store |
| ColorConversion.ParseHex | src/contexts/ThemeContext.tsx:38-43 | a colour is parsed exactly when the input is six hex digits after an optional `#`, and each channel is then a byte |
| ColorConversion.ParseToHex | src/contexts/ThemeContext.tsx:38-43 | a byte triple written as six hex digits, with or without `#`, parses back to itself |
| ColorConversion.ParseHexIgnoresCase | src/contexts/ThemeContext.tsx:38 | lower-casing the input never changes what it parses to |
| ColorConversion.ParseHexOptionalHash | src/contexts/ThemeContext.tsx:38 | a leading `#` may be omitted |
| ColorConversion.ParseHexCaseInsensitive | src/contexts/ThemeContext.tsx:38 | two inputs equal up to letter case parse alike |
| ColorConversion.RgbToHsl | src/contexts/ThemeContext.tsx:45-65 | for channels in [0, 1]: hue in [0, 1), saturation and lightness in [0, 1]; saturation is 0 exactly for greys, whose hue is 0 |
| ColorConversion.Saturation | src/contexts/ThemeContext.tsx:52-53 | for a colour whose channels differ, the saturation lies in (0, 1] on both sides of the lightness test |
| ColorConversion.Hue | src/contexts/ThemeContext.tsx:54-64 | for a colour whose channels differ, the hue from whichever channel is largest lies in [0, 1) |
| ColorConversion.RgbToHslLightness | src/contexts/ThemeContext.tsx:45-49 | the lightness is the mean of the largest and the smallest channel |
| ColorConversion.HslNumbers | src/contexts/ThemeContext.tsx:41-67 | the printed numbers are at most 360 degrees, 100% and 100% |
| ColorConversion.HexToHsl | src/contexts/ThemeContext.tsx:37-39 | any input not matching the pattern gives exactly "0 0% 0%" |
| ColorConversion.HexToHslInRange | src/contexts/ThemeContext.tsx:37-68 | a well-formed input renders as "H S% L%" with H ≤ 360, S ≤ 100, L ≤ 100 |
| ColorConversion.HexToHslCaseAndHash | src/contexts/ThemeContext.tsx:38 | inputs that agree up to letter case convert alike, and adding `#` in front changes nothing |
| ColorConversion.HexToHslGrey | src/contexts/ThemeContext.tsx:45-67 | a grey of level v renders with hue 0, saturation 0 and lightness v/255 in rounded percent |
| ColorConversion.HexToHslBlack | src/contexts/ThemeContext.tsx:37-68 | "#000000" renders as "0 0% 0%", the same text as the fallback |
| ColorConversion.HexToHslWhite | src/contexts/ThemeContext.tsx:37-68 | "#ffffff" renders as "0 0% 100%" |
| ColorConversion.HexToHslExamples | src/contexts/ThemeContext.tsx:38-39 | "#zzzzzz" falls back; "#d4a533", "#D4A533" and "d4a533" convert alike |
| ThemeContext.Toggled | src/contexts/ThemeContext.tsx:105-107 | toggling always changes the mode |
| ThemeContext.ToggleInvolutive | src/contexts/ThemeContext.tsx:105-107 | toggling flips light and dark, and twice restores the mode |
| ThemeContext.InitialThemePriority | src/contexts/ThemeContext.tsx:71-75 | a stored "dark"/"light" wins; otherwise the mode is dark exactly when the dark-scheme hint holds |
| ThemeContext.ThemeRoundTrip | src/contexts/ThemeContext.tsx:71-94 | the mode the theme effect stores is the mode the next load restores, whatever the hint |
| ThemeContext.ColorsRoundTrip | src/contexts/ThemeContext.tsx:77-103 | the palette the palette effect stores is the palette the next load restores |
| ThemeContext.LoadFallbackIgnoresMode | src/contexts/ThemeContext.tsx:77-87 | a missing or unparseable stored palette loads the light defaults, which differ from the dark reset target |
| ThemeContext.ResetFollowsMode | src/contexts/ThemeContext.tsx:117-119 | reset picks the dark defaults exactly in dark mode and the light defaults exactly in light mode |
| ThemeContext.Palette.With | src/contexts/ThemeContext.tsx:113-115 | setting a slot gives it the new value and leaves the other three slots unchanged |
| ThemeContext.ThemeClassesExclusive | src/contexts/ThemeContext.tsx:89-94 | after the theme effect the root has the current mode's class, not the other's, and keeps all its other classes |
| ThemeContext.StyleWritesEffect | src/contexts/ThemeContext.tsx:98-101 | the four `setProperty` calls set --primary, --ring and --golden to one value and --accent to another, add exactly those keys, and keep every other variable |
| ThemeContext.PaletteVarsWrites | src/contexts/ThemeContext.tsx:96-103 | the palette effect writes the primary's conversion to --primary, --ring and --golden, the accent's to --accent, and leaves every other variable alone |
| ThemeContext.PaletteVarsIdempotent | src/contexts/ThemeContext.tsx:96-103 | running the palette effect twice for one palette equals running it once |
| ThemeContext.PaletteVarsIgnoreSecondaryAndBackground | src/contexts/ThemeContext.tsx:96-103 | the secondary and background slots never reach a style variable |
| ThemeContext.SetPrimaryThenDerive | src/contexts/ThemeContext.tsx:96-115 | after setting the primary (accent) slot, --primary (--accent) holds the conversion of the new value |
| ThemeContext.InvalidAccentFallsBack | src/contexts/ThemeContext.tsx:96-103 | an accent that is not a colour gives --accent the fallback "0 0% 0%" |
| ThemeContext.ThemeProvider.constructor | src/contexts/ThemeContext.tsx:71-103 | on mount the mode and palette are the restored ones, and both effects have written storage, root classes and style variables |
| ThemeContext.ThemeProvider.ApplyTheme | src/contexts/ThemeContext.tsx:89-94 | the theme effect updates the root classes and the stored mode and nothing else |
| ThemeContext.ThemeProvider.ApplyColors | src/contexts/ThemeContext.tsx:96-103 | the palette effect updates the style variables and the stored palette and nothing else |
| ThemeContext.ThemeProvider.ToggleTheme | src/contexts/ThemeContext.tsx:105-107 | the mode flips, the palette stays, and storage and root classes follow the new mode |
| ThemeContext.ThemeProvider.SetTheme | src/contexts/ThemeContext.tsx:109-111 | the mode becomes the given one, the palette stays, and storage and root classes follow |
| ThemeContext.ThemeProvider.SetCustomColor | src/contexts/ThemeContext.tsx:113-115 | only the given slot changes; the style variables and the stored palette follow; the mode stays |
| ThemeContext.ThemeProvider.ResetColors | src/contexts/ThemeContext.tsx:117-119 | the palette becomes the current mode's defaults; variables and storage follow; the mode stays |
| ThemeContext.UseTheme | src/contexts/ThemeContext.tsx:135-141 | without a provider the hook fails with its error message; with one it returns that provider |
| ProductDetail.WholesaleUnitPrice | src/pages/ProductDetail.tsx:38 | the wholesale price is 85% of the retail price rounded to the nearest unit: within half a unit of it, halves up |
| ProductDetail.PricingRules | src/pages/ProductDetail.tsx:33-53 | the tier applies exactly from 10 units; the unit price is then the wholesale price, else retail; total is unit price × quantity; savings is retail total − total under the tier, i.e. quantity × (retail − wholesale), else 0 |
| ProductDetail.SavingsNonNegative | src/pages/ProductDetail.tsx:42-43 | for non-negative prices and quantities, the wholesale price never exceeds retail and savings are never negative |
| ProductDetail.PricingIgnoresProductTierFields | src/pages/ProductDetail.tsx:37-40 | the product's own `wholesalePrice` and `minWholesaleQty` fields do not affect the pricing |
| ProductDetail.MissingProductPricing | src/pages/ProductDetail.tsx:34-35 | a missing product has unit price 0, total 0, no tier and savings 0 |
| ProductDetail.VanillaTiers | src/pages/ProductDetail.tsx:30-53 | Classic Vanilla costs 1341 for 9 tubs at retail, and 1270 for 10 tubs at 127 each, saving 220 |
| ProductDetail.Stepped | src/pages/ProductDetail.tsx:80-85 | the new quantity is taken exactly when it lies in [1, stock], otherwise the quantity is unchanged; a quantity in [1, stock] stays there |
| ProductDetail.SteppedAllInRange | src/pages/ProductDetail.tsx:80-85 | starting in [1, stock], no sequence of stepper clicks leaves [1, stock] |
| ProductDetail.QuantitySelector.constructor | src/pages/ProductDetail.tsx:26 | the quantity starts at 1, which is in range whenever stock ≥ 1 |
| ProductDetail.QuantitySelector.UpdateQuantity | src/pages/ProductDetail.tsx:80-85 | the quantity becomes the stepped value and stays within [1, stock] |
| ProductDetail.HandleAddToCart | src/pages/ProductDetail.tsx:70-73 | `addToCart` is called exactly `quantity` times (none for a non-positive quantity), each time with the same product |
| Checkout.GrandTotalBounds | src/pages/Checkout.tsx:31-32 | shipping is 0 exactly from 500 and 50 below; the subtotal ≤ grand total ≤ subtotal + 50 |
| Checkout.GrandTotalThreshold | src/pages/Checkout.tsx:31-32 | a subtotal of 499 costs 549 in all, and 500 costs 500 |
| Checkout.GrandTotalAcrossThreshold | src/pages/Checkout.tsx:31-32 | a larger subtotal never costs less in all, except across the threshold, and then by at most 50 |
| Checkout.ViewSelection | src/pages/Checkout.tsx:58-72 | the empty-cart view shows exactly when the cart is empty and no order is placed; the confirmation shows exactly when an order is placed; the form otherwise |
| Checkout.SubmitOrdering | src/pages/Checkout.tsx:38-56 | submit turns loading on first and off last; the cart is cleared only after the delay resolves, while loading is still on; the page ends with the order placed under the new id |
| Checkout.CheckoutPage.constructor | src/pages/Checkout.tsx:17-19 | the page starts not loading, with no order placed and no order id |
| Checkout.CheckoutPage.Do | src/pages/Checkout.tsx:40-55 | each step changes exactly the state it names and is appended to the trace |
| Checkout.CheckoutPage.HandleSubmit | src/pages/Checkout.tsx:38-56 | the trace grows by the submit steps in order, and the page ends not loading, with the order placed under the given id and the cart cleared |
| Text.Contains | src/pages/admin/AdminProducts.tsx:15-16 | `includes` holds exactly when the needle occurs at some position of the text |
| AdminProducts.FilteredProducts | src/pages/admin/AdminProducts.tsx:13-17 | the listed products are a subsequence of the catalogue, and each has the term in its name or category, case ignored |
| AdminProducts.FilteredProductsExactly | src/pages/admin/AdminProducts.tsx:13-17 | a product is listed exactly when its name or category contains the term, as often as it occurs; one matching neither is dropped |
| AdminProducts.EmptySearchListsAllProducts | src/pages/admin/AdminProducts.tsx:13-17 | an empty term lists every product |
| AdminProducts.ProductSearchIgnoresCase | src/pages/admin/AdminProducts.tsx:15-16 | terms equal up to letter case list the same products |
| AdminProducts.NoProductsFound | src/pages/admin/AdminProducts.tsx:124 | "No products found" shows exactly when no product matches |
| AdminProducts.Labelling | src/pages/admin/AdminProducts.tsx:89-101 | stock is shown in red exactly below 20; the badge reads "Featured" exactly for featured products, "Regular" otherwise |
| AdminProducts.SeedCatalogLabels | src/pages/admin/AdminProducts.tsx:89-101 | in the seed catalogue no stock is highlighted and every badge reads "Featured" |
| AdminOrders.FilteredOrders | src/pages/admin/AdminOrders.tsx:48-51 | the listed orders are a subsequence of the orders, each with the term in the customer name or id, case ignored |
| AdminOrders.FilteredOrdersExactly | src/pages/admin/AdminOrders.tsx:48-51 | an order is listed exactly when its customer name or id contains the term, as often as it occurs |
| AdminOrders.OrderSearchIgnoresCase | src/pages/admin/AdminOrders.tsx:48-51 | terms equal up to letter case list the same orders |
| AdminOrders.EmptySearchListsAllOrders | src/pages/admin/AdminOrders.tsx:21-51 | an empty term lists all three mock orders |
| AdminOrders.EmailNeverSearched | src/pages/admin/AdminOrders.tsx:48-51 | whether an order is kept never depends on its e-mail, total, status or date |
| AdminOrders.EmailSearchFindsNothing | src/pages/admin/AdminOrders.tsx:21-51 | searching for "rahul@example.com", an address shown in the table, lists no order |
| AdminOrders.NoOrdersFound | src/pages/admin/AdminOrders.tsx:137 | "No orders found" shows exactly when no order matches |
| AdminOrders.StatusColors | src/pages/admin/AdminOrders.tsx:53-61 | pending, confirmed, delivered and cancelled get four distinct, non-default classes; any other string, "Pending" included, gets the default |
| AdminOrders.StatusLabel | src/pages/admin/AdminOrders.tsx:118 | the label has the status's length |
| AdminOrders.StatusLabelOnlyCapitalises | src/pages/admin/AdminOrders.tsx:118 | only the first character can change, and only when it is a lower-case letter; the label never starts with a lower-case letter; it lower-cases to what the status does, and labelling is idempotent |
| AdminOrders.KnownStatusLabels | src/pages/admin/AdminOrders.tsx:118 | the four statuses read "Pending", "Confirmed", "Delivered" and "Cancelled" |
| AdminNews.FilteredNews | src/pages/admin/AdminNews.tsx:13-16 | the listed articles are a subsequence of the news list, each with the term in its title or category, case ignored |
| AdminNews.FilteredNewsExactly | src/pages/admin/AdminNews.tsx:13-16 | an article is listed exactly when its title or category contains the term, as often as it occurs |
| AdminNews.EmptySearchListsAllNews | src/pages/admin/AdminNews.tsx:13-16 | an empty term lists every article |
| AdminNews.NewsSearchIgnoresCase | src/pages/admin/AdminNews.tsx:14-15 | terms equal up to letter case list the same articles |
| AdminNews.BodyNeverSearched | src/pages/admin/AdminNews.tsx:13-16 | rewriting excerpts and contents changes no article's match, so a term that matches no title or category finds nothing |
| AdminNews.NoArticlesFound | src/pages/admin/AdminNews.tsx:85 | "No articles found" shows exactly when no article matches |
| FeaturedProducts.FeaturedProducts | src/components/home/FeaturedProducts.tsx:9 | at most four products are shown, all featured |
| FeaturedProducts.FeaturedSelection | src/components/home/FeaturedProducts.tsx:9 | the strip is a prefix of the featured-only list and a subsequence of the catalogue; with at most four featured products it shows them all, otherwise exactly four |
| FeaturedProducts.SeedStrip | src/components/home/FeaturedProducts.tsx:9 | with the seed catalogue, all four products are shown in order |
| LatestNews.LatestNewsIsPrefix | src/components/home/LatestNews.tsx:22 | the teaser is the first min(3, n) items in order, and the whole list when it has at most three |
| LatestNews.SeedTeaser | src/components/home/LatestNews.tsx:22 | with the seed news, the teaser shows the new flavour, the promotion and the update |
| LatestNews.CategoryColors | src/components/home/LatestNews.tsx:8-19 | new-flavor, promo and event get three distinct non-default colours; every other string, "update" included, gets the muted default |
| Text.ReplaceFirstExactlyFirst | src/components/home/LatestNews.tsx:85 | `replace` with a one-character pattern changes only the first occurrence |
| LatestNews.CategoryLabelFirstHyphenOnly | src/components/home/LatestNews.tsx:85 | only the first hyphen becomes a space; every other character, later hyphens included, is kept; a hyphen-free category is unchanged |
| LatestNews.NewFlavorLabel | src/components/home/LatestNews.tsx:85 | "new-flavor" is labelled "new flavor" |
| LatestNews.PlainCategoryLabels | src/components/home/LatestNews.tsx:85 | the other seed categories are labelled as they are spelled |
| LatestNews.ImageBlock | src/components/home/LatestNews.tsx:69 | the image block shows exactly for items whose image is present and not empty; every seed item has one |

## Left out

- The cart store. `src/contexts/CartContext.tsx` is not part of this model. Its total price and item count are inputs. `addToCart` is a recorded call (`ProductDetail.CartCalls`), and `clearCart` is a recorded step. No clamping or removal rule is modelled. `src/components/layout/CartPanel.tsx`, which only wires buttons to the cart, is left out with it.
- Floating point. `hexToHsl` computes over exact reals, not IEEE doubles. `Math.round` is taken as floor(x + 0.5). Exact rounded strings are proved only for pure black and pure white.
- ProductDetail.WholesaleUnitPrice: `Math.round(price * (1 - 0.15))` is modelled as the exact round-half-up of 85% of the price. The double product `price * 0.85` may fall on the other side of a half than the exact value.
- Case mapping. `toLowerCase` and `toUpperCase` are modelled on the ASCII letters only. Letters outside ASCII (for example 'É', or 'ß', which upper-cases to two characters) are left unchanged. This affects the admin searches and the status label.
- Durable storage is modelled as typed fields: the stored mode string, and a stored palette that is absent, unparseable or a full palette. JSON text is not modelled. A stored JSON object that lacks some of the four slots cannot be expressed, so the model does not claim the four slots for such an input.
- `window.matchMedia` is a boolean parameter. The document root's class list and style variables are fields of `ThemeProvider`.
- Time. `Date.now()` is the `now` parameter of the notification store. Ids derived from it are not unique when two notifications are added within the same millisecond; the model does not claim uniqueness. The `Date` objects of `createdAt` are milliseconds.
- Randomness. The `Math.random` order id of checkout is the `mockOrderId` parameter.
- Asynchrony. The 1.5-second `setTimeout` of checkout is one atomic step (`DelayResolved`). React's batching and re-rendering are not modelled: each state update is applied immediately.
- Toasts, navigation, routing, animation and markup are not modelled.
- The presentational files (About, Footer, HeroSection, WhyChooseUs, NotFound, Index, Header, NotificationPanel, News, Settings, AdminDashboard, AdminOverview, AdminSettings) are not modelled.
- Auth and AdminLogin are not modelled. Both accept any input.
- Seed data. The news items' `content` texts are shortened, and image URLs are reduced to their photo identifiers. No property depends on either.
- AdminOrders.StatusLabel: `charAt(0).toUpperCase()` on a status whose first character is outside ASCII is not modelled (see case mapping).
