# Fast-Food-App core, modelled in Dafny

This project models the server side of a food-ordering application:
- a menu catalogue with categories and images in S3 object storage;
- a shopping cart per user;
- checkout into orders, with a confirmation e-mail and a payment link;
- Stripe payment initialisation and settlement;
- registration and login with JWT bearer tokens;
- management of one's own account;
- the HTTP security rules and the JWT filter in front of them;
- the global exception advice that turns service errors into 400/404 responses.

Every service is modelled over in-memory stores: maps keyed by id, held in classes whose methods change them. Errors are a `Result` datatype:
- `NotFound` and `BadRequest` stand for the application's two exceptions;
- `Fault` stands for any other runtime exception, from a collaborator or a null dereference.

Collaborators become parameters. In checkout, settlement, the menu operations and the account update, a `fault` argument names the collaborator call that throws; `UpdateOrderStatus` and `DeactivateOwnAccount` take a flag for a failing save. Opaque functions stand for:
- the mail service;
- the template engine;
- the payment gateway;
- S3;
- the password encoder;
- the JWT utilities;
- UUIDs and the clock.

Amounts are integers in minor currency units.

Modules, one file each:
- `Common`: `Option`, `Result`, descending and ascending key lists, and paging by rank.
- `JavaStrings`: the `String`/`Character`/`StringUtils` operations the code relies on.
- `Exceptions`: the exception advice.
- `CartController`: the cart endpoints' guards.
- `Carts`: the cart service.
- `Orders`: checkout and the order store.
- `Payments`: payment initialisation, settlement and the payment views.
- `Catalog`: the category and menu repositories.
- `MenuServices`: the menu service.
- `CategoryServices`: the category service.
- `Accounts`: the user and role repositories.
- `AuthServices`: registration and login.
- `UserServices`: the own-account operations.
- `SecurityRules`: the authorization rule table.
- `AuthFilters`: the JWT filter.
- `External`: the values handed to S3 and the mail service.

The implementations of the cart, order and payment services are not part of this model's sources; what their unit tests assert is modelled instead. Where a test and the code disagree, the code is followed:
- An unknown login e-mail is a `BadRequest`, as the code throws it, although a test expects `NotFound`.
- Registration fields that the code dereferences without a null check are modelled as always present.
- Checkout by a user without an address fails `NotFound`. The order tests assert this; a `BadRequest` might be expected from the wording of the error.

## Model

| member | source | states |
|---|---|---|
| Exceptions.HandleBadRequest | backend/src/main/java/com/phegon/FoodApp/exceptions/GlobalExceptionHandler.java:35-44 | a BadRequestException becomes HTTP 400, body status 400, its message, no data |
| Exceptions.HandleNotFound | backend/src/main/java/com/phegon/FoodApp/exceptions/GlobalExceptionHandler.java:46-55 | a NotFoundException becomes HTTP 404, body status 404, its message, no data |
| Exceptions.HandleRoundTrip | backend/src/main/java/com/phegon/FoodApp/exceptions/GlobalExceptionHandler.java:35-55 | the response of either exception determines the exception and its message |
| Exceptions.ErrorMapKeys | backend/src/main/java/com/phegon/FoodApp/exceptions/GlobalExceptionHandler.java:19-33 | the validation map has exactly the fields with an error as keys |
| Exceptions.ErrorMapLastWins | backend/src/main/java/com/phegon/FoodApp/exceptions/GlobalExceptionHandler.java:22-24 | of several errors on one field, the last listed is the one kept |
| Exceptions.HandleValidation | backend/src/main/java/com/phegon/FoodApp/exceptions/GlobalExceptionHandler.java:19-33 | a validation failure answers 400 "Validation failed" with the field map as data |
| CartController.AddItemToCart | backend/src/main/java/com/phegon/FoodApp/cart/controller/CartController.java:22-30 | a null menuId is refused first, then a quantity of 0 or less; only other requests reach the service, unchanged |
| CartController.PathId | backend/src/main/java/com/phegon/FoodApp/cart/controller/CartController.java:36-40 | a path segment is accepted iff it is one or more ASCII digits, and is then read as the number those digits spell |
| CartController.NullIsNotDigits | backend/src/main/java/com/phegon/FoodApp/cart/controller/CartController.java:36-39 | the text "null" never passes the digit test |
| CartController.PathIdRoundTrip | backend/src/main/java/com/phegon/FoodApp/cart/controller/CartController.java:36-40 | the decimal spelling of every id is accepted and read back as that id |
| CartController.LeadingZerosIgnored | backend/src/main/java/com/phegon/FoodApp/cart/controller/CartController.java:36-40 | a leading zero is accepted and does not change the id read: "007" is read as 7 |
| CartController.IncrementItem | backend/src/main/java/com/phegon/FoodApp/cart/controller/CartController.java:36-40 | increment is forwarded with the parsed id iff the segment is digits, else 400 |
| CartController.DecrementItem | backend/src/main/java/com/phegon/FoodApp/cart/controller/CartController.java:46-50 | decrement is forwarded with the parsed id iff the segment is digits, else 400 |
| CartController.RemoveItem | backend/src/main/java/com/phegon/FoodApp/cart/controller/CartController.java:56-60 | removal is forwarded iff the segment is digits, else 400 "cartItemId is required" |
| CartController.GetShoppingCart | backend/src/main/java/com/phegon/FoodApp/cart/controller/CartController.java:66-68 | reading the cart is forwarded without any check |
| CartController.ClearShoppingCart | backend/src/main/java/com/phegon/FoodApp/cart/controller/CartController.java:72-74 | clearing the cart is forwarded without any check |
| CartController.ForwardedIdsAreCanonical | backend/src/main/java/com/phegon/FoodApp/cart/controller/CartController.java:36-60 | increment, decrement and removal accept the same segments, forward the number the digits spell, and forward the same call for that number's own spelling |
| Carts.Find | backend/src/test/java/com/phegon/FoodApp/cart/service/MenuServiceImplTest.java:123-150 | the position found is the first line matching the key, and none is found iff no line matches |
| Carts.TotalIsPriceTotal | backend/src/test/java/com/phegon/FoodApp/cart/service/MenuServiceImplTest.java:388-410 | on a priced cart the sum of subtotals equals price times quantity summed over the lines |
| Carts.TotalAtLeastLines | backend/src/test/java/com/phegon/FoodApp/cart/service/MenuServiceImplTest.java:388-410 | with positive prices a cart's total is at least its number of lines |
| Carts.TotalUpdate | backend/src/test/java/com/phegon/FoodApp/cart/service/MenuServiceImplTest.java:178-253 | replacing a line changes the total by the difference of the two subtotals |
| Carts.TotalRemove | backend/src/test/java/com/phegon/FoodApp/cart/service/MenuServiceImplTest.java:220-253 | removing a line takes exactly its subtotal off the total |
| Carts.AddToLinesSpec | backend/src/test/java/com/phegon/FoodApp/cart/service/MenuServiceImplTest.java:123-150 | adding q of a menu raises that menu's quantity by q, leaves every other menu's quantity, and raises the total by price times q |
| Carts.AppendSpec | backend/src/test/java/com/phegon/FoodApp/cart/service/MenuServiceImplTest.java:80-98 | adding a menu the cart lacks appends exactly one fresh line for it |
| Carts.IncrementSpec | backend/src/test/java/com/phegon/FoodApp/cart/service/MenuServiceImplTest.java:178-217 | incrementing raises that menu's quantity by one, repricing its line, and nothing else |
| Carts.DecrementSpec | backend/src/test/java/com/phegon/FoodApp/cart/service/MenuServiceImplTest.java:220-253 | decrementing lowers that menu's quantity by one and the total by its price, and nothing else |
| Carts.DecrementLast | backend/src/test/java/com/phegon/FoodApp/integration/CartIntegrationIT.java:360-390 | a line at quantity one leaves the cart when decremented |
| Carts.DecrementMore | backend/src/test/java/com/phegon/FoodApp/cart/service/MenuServiceImplTest.java:220-253 | a line above quantity one stays, one lower, subtotal recomputed |
| Carts.RemoveSpec | backend/src/test/java/com/phegon/FoodApp/cart/service/MenuServiceImplTest.java:297-336 | removing a line drops its menu to zero and leaves every other menu's quantity |
| Carts.ReplaceKeepsShape | backend/src/test/java/com/phegon/FoodApp/cart/service/MenuServiceImplTest.java:178-253 | repricing a line keeps the cart well formed (one line per menu, distinct ids, priced) |
| Carts.RemoveKeepsShape | backend/src/test/java/com/phegon/FoodApp/cart/service/MenuServiceImplTest.java:297-336 | removing a line keeps the cart well formed |
| Carts.StorePut | backend/src/test/java/com/phegon/FoodApp/cart/service/MenuServiceImplTest.java:80-150 | installing a well-formed cart with old or fresh line ids keeps every cart well formed and line ids unique across carts |
| Carts.CartService.AddItemToCart | backend/src/test/java/com/phegon/FoodApp/cart/service/MenuServiceImplTest.java:80-162 | unknown menu is NotFound with nothing changed; otherwise the user's cart, created if missing, becomes the merge or append of the item |
| Carts.CartService.IncrementItem | backend/src/test/java/com/phegon/FoodApp/cart/service/MenuServiceImplTest.java:178-217 | NotFound without a cart or a line for the menu; otherwise that line gains one, subtotal price times quantity |
| Carts.CartService.DecrementItem | backend/src/test/java/com/phegon/FoodApp/cart/service/MenuServiceImplTest.java:220-253 | NotFound without a cart or line; otherwise the line loses one or leaves the cart at quantity one |
| Carts.CartService.RemoveItem | backend/src/test/java/com/phegon/FoodApp/cart/service/MenuServiceImplTest.java:297-336 | NotFound when the cart is missing, the line id unknown, or the line in another user's cart (that cart untouched); otherwise the line is removed |
| Carts.CartService.ClearShoppingCart | backend/src/test/java/com/phegon/FoodApp/cart/service/MenuServiceImplTest.java:437-485 | NotFound without a cart; otherwise the cart is empty afterwards and the removed lines are returned |
| Carts.GetShoppingCart | backend/src/test/java/com/phegon/FoodApp/cart/service/MenuServiceImplTest.java:359-410 | NotFound without a cart; otherwise the lines with total equal to the sum of their subtotals |
| Orders.SnapshotSpec | backend/src/test/java/com/phegon/FoodApp/order/services/OrderServiceImplTest.java:314-341 | the order has one line per cart line with menu and quantity copied, and its total is the cart total, i.e. price times quantity summed |
| Orders.CheckoutTotalPositive | backend/src/test/java/com/phegon/FoodApp/order/services/OrderServiceImplTest.java:314-341 | an order checked out from a non-empty priced cart has a positive total |
| Orders.PaymentLinkSpec | backend/src/test/java/com/phegon/FoodApp/order/services/OrderServiceImplTest.java:516-543 | the payment link starts with the configured base and contains the order id |
| Orders.SubjectNamesOrder | backend/src/test/java/com/phegon/FoodApp/order/services/OrderServiceImplTest.java:465-490 | the confirmation subject contains "Order #" followed by the order id |
| Orders.CheckoutGuard | backend/src/test/java/com/phegon/FoodApp/order/services/OrderServiceImplTest.java:265-312 | no user, no address and no cart are NotFound, an empty cart BadRequest, in that order; the guard passes iff the cart has lines |
| Orders.TrimmedSpec | backend/src/test/java/com/phegon/FoodApp/order/services/OrderServiceImplTest.java:616-664 | a trimmed order view has no menu reviews, has its user removed iff asked, keeps every other field, and trimming twice changes nothing |
| Orders.TrimLines | backend/src/test/java/com/phegon/FoodApp/order/services/OrderServiceImplTest.java:616-664 | trimming the lines succeeds iff every line has a menu, and then drops every review |
| Orders.TrimOrders | backend/src/test/java/com/phegon/FoodApp/order/services/OrderServiceImplTest.java:747-787 | every view is trimmed in order, failing iff some line lacks a menu |
| Orders.OrderService.PlaceOrderFromCart | backend/src/test/java/com/phegon/FoodApp/order/services/OrderServiceImplTest.java:241-514 | a failed guard changes nothing; otherwise save order, save lines, clear cart, map, render, send happen in order up to a failing step, and success means each happened once with the cart snapshot and one confirmation e-mail; stored order dates never decrease with the id |
| Orders.OrderService.GetOrdersOfUser | backend/src/test/java/com/phegon/FoodApp/order/services/OrderServiceImplTest.java:616-664 | exactly the user's orders, newest order date first (equal dates highest id first), with user and menu reviews removed |
| Orders.OrderService.GetAllOrders | backend/src/test/java/com/phegon/FoodApp/order/services/OrderServiceImplTest.java:747-787 | exactly the orders in the given status (all without one) whose rank among them falls on the requested page, newest first, reviews removed |
| Orders.OrderService.UpdateOrderStatus | backend/src/test/java/com/phegon/FoodApp/order/services/OrderServiceImplTest.java:877-905 | an unknown id is NotFound; otherwise only that order's status changes |
| Payments.InitializePayment | backend/src/test/java/com/phegon/FoodApp/payment/services/PaymentServiceImplTest.java:82-233 | unknown order NotFound; a COMPLETED order, a null amount, a zero total and a mismatched amount BadRequest; otherwise the gateway's secret or its failure |
| Payments.InitializeOkSpec | backend/src/test/java/unit/PaymentServiceImplTest.java:82-159 | a secret is returned only for an order that is not COMPLETED, with a positive total equal to the claimed amount |
| Payments.Settle | backend/src/test/java/com/phegon/FoodApp/payment/services/PaymentServiceImplTest.java:255-292 | settlement sets COMPLETED/CONFIRMED on success and FAILED/CANCELLED otherwise, and changes no other field |
| Payments.PaidOrderIsNotChargedAgain | backend/src/test/java/com/phegon/FoodApp/payment/services/PaymentServiceImplTest.java:124-136 | an order settled successfully can never reach the gateway again |
| Payments.FailedOrderMayBeRetried | backend/src/test/java/unit/PaymentServiceImplTest.java:138-159 | an order whose payment failed still reaches the gateway and gets its secret |
| Payments.SettleIgnoresHistory | backend/src/test/java/unit/PaymentServiceImplTest.java:281-319 | the statuses after settlement do not depend on the statuses before, and settling twice is settling once |
| Payments.DetailTrimmedSpec | backend/src/test/java/unit/PaymentServiceImplTest.java:543-579 | the payment detail keeps the user's id without roles, the order without its user and reviews, and everything else |
| Payments.TrimPaymentDetail | backend/src/test/java/unit/PaymentServiceImplTest.java:595-648 | trimming fails iff the payment has no user, no order or a line without a menu |
| Payments.Summary | backend/src/test/java/unit/PaymentServiceImplTest.java:497-539 | a payment summary keeps the payment's own fields and has no order and no user |
| Payments.PaymentService.UpdatePaymentForOrder | backend/src/test/java/com/phegon/FoodApp/payment/services/PaymentServiceImplTest.java:255-460 | unknown order NotFound; otherwise payment saved with a date, order settled, template rendered, e-mail sent to the order's user, in order up to a failing step |
| Payments.PaymentService.GetAllPayments | backend/src/test/java/unit/PaymentServiceImplTest.java:497-539 | one summary per stored payment, each id once, newest first |
| Payments.PaymentService.GetPaymentById | backend/src/test/java/unit/PaymentServiceImplTest.java:543-648 | unknown id NotFound; otherwise the trimmed detail, which fails iff user, order or a line's menu is missing |
| Catalog.PutKeepsNamesDistinct | backend/src/main/java/com/phegon/FoodApp/category/services/CategoryServiceImpl.java:41-48 | storing a category whose name no other category has (ignoring case) keeps all names distinct |
| MenuServices.KeyOfUploadedUrl | backend/src/main/java/com/phegon/FoodApp/menu/services/MenuServiceImpl.java:131-146 | the key recovered from an uploaded image's URL is the key it was uploaded under |
| MenuServices.ImageCalls | backend/src/main/java/com/phegon/FoodApp/menu/services/MenuServiceImpl.java:131-146 | no file means no call; otherwise the old key is deleted iff the old URL is non-empty, then the new key uploaded |
| MenuServices.CreateCheck | backend/src/main/java/com/phegon/FoodApp/menu/services/MenuServiceImpl.java:50-67 | category exists (NotFound), then name, price above zero and a non-empty image (BadRequest), in that order |
| MenuServices.UpdateCheck | backend/src/main/java/com/phegon/FoodApp/menu/services/MenuServiceImpl.java:99-134 | unknown menu, then unknown category NotFound, before the field checks; given name non-blank, given price above zero, given image non-empty |
| MenuServices.SpecificationMeaning | backend/src/main/java/com/phegon/FoodApp/menu/services/MenuServiceImpl.java:230-265 | the built specification accepts a menu iff the category matches when given and the lower-cased name or description contains the lower-cased search when it has text |
| MenuServices.EmptyFilterMatchesAll | backend/src/main/java/com/phegon/FoodApp/menu/services/MenuServiceImpl.java:230-265 | without category and search every menu matches |
| MenuServices.SortNewestFirst | backend/src/main/java/com/phegon/FoodApp/menu/services/MenuServiceImpl.java:171-174 | the reviews come back as a permutation of the input ordered by id descending |
| MenuServices.Updated | backend/src/main/java/com/phegon/FoodApp/menu/services/MenuServiceImpl.java:109-150 | a given name is stored trimmed, a given price replaces the old, null ones keep it; description and category always replaced; a new image's URL replaces the old |
| MenuServices.EmptyUpdateKeepsMenu | backend/src/main/java/com/phegon/FoodApp/menu/services/MenuServiceImpl.java:109-150 | an update giving only the same category and description leaves the menu as it was |
| MenuServices.ImageCallsUnderFault | backend/src/main/java/com/phegon/FoodApp/menu/services/MenuServiceImpl.java:131-150 | a throwing delete makes no call, a throwing upload only the delete, and otherwise every image call is made and only the save can throw |
| MenuServices.FailedUploadAfterDelete | backend/src/main/java/com/phegon/FoodApp/menu/services/MenuServiceImpl.java:137-146 | an upload that throws after the old image was deleted leaves the delete made and the update cut short, so the stored menu keeps the deleted image's URL |
| MenuServices.MenuService.CreateMenu | backend/src/main/java/com/phegon/FoodApp/menu/services/MenuServiceImpl.java:45-82 | a failed check uploads and stores nothing; otherwise one upload and the new menu with trimmed name and the upload's URL; a throwing upload stores nothing, a throwing save leaves the upload made |
| MenuServices.MenuService.UpdateMenu | backend/src/main/java/com/phegon/FoodApp/menu/services/MenuServiceImpl.java:95-152 | a failed check changes nothing; otherwise the image calls are made and the menu replaced by its update; a throwing call keeps the calls before it and leaves the menu as stored |
| MenuServices.MenuService.GetMenuById | backend/src/main/java/com/phegon/FoodApp/menu/services/MenuServiceImpl.java:162-180 | unknown id NotFound; otherwise the menu with its reviews newest first, a null review list left null |
| MenuServices.MenuService.DeleteMenu | backend/src/main/java/com/phegon/FoodApp/menu/services/MenuServiceImpl.java:184-199 | unknown id NotFound; otherwise the image key is deleted iff the URL is non-empty and the menu removed; a throwing delete or removal leaves the menu stored |
| MenuServices.MenuService.GetMenus | backend/src/main/java/com/phegon/FoodApp/menu/services/MenuServiceImpl.java:207-265 | exactly the menus the filter accepts, by id descending |
| CategoryServices.AddCheck | backend/src/main/java/com/phegon/FoodApp/category/services/CategoryServiceImpl.java:36-44 | accepted iff the name is given, not blank after trimming, and (untrimmed) equal ignoring case to no stored name |
| CategoryServices.UpdateCheck | backend/src/main/java/com/phegon/FoodApp/category/services/CategoryServiceImpl.java:64-80 | unknown id NotFound; a given name must be non-empty after trimming and belong, ignoring case, to no other category |
| CategoryServices.Renamed | backend/src/main/java/com/phegon/FoodApp/category/services/CategoryServiceImpl.java:68-86 | a given name is stored trimmed, a given description replaces the old, null fields stay |
| CategoryServices.OwnNameIsNotTaken | backend/src/main/java/com/phegon/FoodApp/category/services/CategoryServiceImpl.java:76-80 | a category's own name never clashes with itself |
| CategoryServices.CategoryService.AddCategory | backend/src/main/java/com/phegon/FoodApp/category/services/CategoryServiceImpl.java:31-54 | a refused request stores nothing; otherwise the category is stored under a new id and names stay distinct |
| CategoryServices.CategoryService.UpdateCategory | backend/src/main/java/com/phegon/FoodApp/category/services/CategoryServiceImpl.java:60-94 | a refused request changes nothing; otherwise that category is replaced by its renamed form and names stay distinct |
| CategoryServices.CategoryService.GetAllCategories | backend/src/main/java/com/phegon/FoodApp/category/services/CategoryServiceImpl.java:120-134 | every stored category exactly once, as stored, by ascending id |
| CategoryServices.CategoryService.DeleteCategory | backend/src/main/java/com/phegon/FoodApp/category/services/CategoryServiceImpl.java:140-158 | unknown id NotFound; a category some menu belongs to BadRequest and kept; otherwise removed |
| Accounts.FindByEmail | backend/src/main/java/com/phegon/FoodApp/auth_users/services/AuthServiceImpl.java:92-93 | with unique e-mails, the user found is the stored one with that e-mail, and none iff no user has it |
| Accounts.PutKeepsEmailsUnique | backend/src/main/java/com/phegon/FoodApp/auth_users/services/AuthServiceImpl.java:43-45 | saving a user whose e-mail nobody else has keeps e-mails unique |
| AuthServices.RegistrationEmailMatchesPattern | backend/src/main/java/com/phegon/FoodApp/auth_users/services/AuthServiceImpl.java:120-121 | the computed e-mail check holds iff the string matches the registration regular expression |
| AuthServices.RegistrationCheck | backend/src/main/java/com/phegon/FoodApp/auth_users/services/AuthServiceImpl.java:119-128 | passes iff e-mail matches, password is 6 or more UTF-16 units long (String.length()), phone is digits of length 10 or more (no upper bound) |
| AuthServices.SurrogatePairsCountTwice | backend/src/main/java/com/phegon/FoodApp/auth_users/services/AuthServiceImpl.java:122-123 | three characters outside the Basic Multilingual Plane make six UTF-16 units and pass the password minimum; three ASCII letters are refused |
| AuthServices.ResolveEach | backend/src/main/java/com/phegon/FoodApp/auth_users/services/AuthServiceImpl.java:49-53 | succeeds iff every upper-cased name is a role, then gives those roles in order; else NotFound naming the first missing one |
| AuthServices.ResolvedRoleNames | backend/src/main/java/com/phegon/FoodApp/auth_users/services/AuthServiceImpl.java:48-59 | the resolved roles are named by the upper-cased requests, and a null or empty request gives exactly [CUSTOMER] |
| AuthServices.RegisterDecision | backend/src/main/java/com/phegon/FoodApp/auth_users/services/AuthServiceImpl.java:40-59 | validation first, then an already-registered e-mail BadRequest, then role resolution |
| AuthServices.LoginCheck | backend/src/main/java/com/phegon/FoodApp/auth_users/services/AuthServiceImpl.java:130-139 | passes iff the e-mail matches the pattern and the password is non-blank and 6 or more UTF-16 units long |
| AuthServices.Login | backend/src/main/java/com/phegon/FoodApp/auth_users/services/AuthServiceImpl.java:86-117 | unknown e-mail BadRequest; success iff known, active and the password matches, giving the e-mail's token and the role names in stored order |
| AuthServices.InactiveAccountRefused | backend/src/main/java/com/phegon/FoodApp/auth_users/services/AuthServiceImpl.java:95-97 | an inactive account is NotFound whatever the password |
| AuthServices.LoginAfterRegister | backend/src/main/java/com/phegon/FoodApp/auth_users/services/AuthServiceImpl.java:36-117 | a registered user logs in with the same e-mail and a non-blank password and gets the registered roles |
| AuthServices.BlankPasswordRegistersButCannotLogIn | backend/src/main/java/com/phegon/FoodApp/auth_users/services/AuthServiceImpl.java:122-136 | six spaces pass registration but login refuses them as empty |
| AuthServices.AuthService.Register | backend/src/main/java/com/phegon/FoodApp/auth_users/services/AuthServiceImpl.java:36-83 | a refused request saves nothing; otherwise one active user with encoded password and resolved roles, e-mails staying unique |
| UserServices.UpdateEmailMatchesPattern | backend/src/main/java/com/phegon/FoodApp/auth_users/services/UserServiceImpl.java:175-178 | the computed check holds iff the string matches the update e-mail regular expression |
| UserServices.RegistrationEmailIsUpdateEmail | backend/src/main/java/com/phegon/FoodApp/auth_users/services/UserServiceImpl.java:175-178 | a registrable address without '%' is also accepted by an update |
| UserServices.PercentRegistersButCannotUpdate | backend/src/main/java/com/phegon/FoodApp/auth_users/services/UserServiceImpl.java:175-178 | "a%b@c.io" passes registration but cannot be set by an update |
| UserServices.BareDomainUpdatesButCannotRegister | backend/src/main/java/com/phegon/FoodApp/auth_users/services/UserServiceImpl.java:175-178 | "a@b" can be set by an update but does not pass registration |
| UserServices.UpdateCheck | backend/src/main/java/com/phegon/FoodApp/auth_users/services/UserServiceImpl.java:167-198 | passes iff each given field is valid: name non-blank, e-mail pattern, phone exactly 10 digits, password 6 or more UTF-16 units, image non-empty |
| UserServices.CurrentUser | backend/src/main/java/com/phegon/FoodApp/auth_users/services/UserServiceImpl.java:41-51 | NotFound "User not found" or "Account not active"; success iff an active user has the e-mail, and it is that user |
| UserServices.ProfileImageCalls | backend/src/main/java/com/phegon/FoodApp/auth_users/services/UserServiceImpl.java:100-111 | no image means no call; otherwise the "profile/" key of the old URL is deleted iff it is non-empty, then the new image uploaded |
| UserServices.Applied | backend/src/main/java/com/phegon/FoodApp/auth_users/services/UserServiceImpl.java:110-127 | each given field replaces the stored one, the password encoded; null fields stay; id, roles and activity never change |
| UserServices.EmptyUpdateKeepsUser | backend/src/test/java/com/phegon/FoodApp/unit/UserServiceImplTest.java:296-308 | an empty update leaves the user as stored and makes no storage call |
| UserServices.PasswordStoredEncoded | backend/src/test/java/com/phegon/FoodApp/unit/UserServiceImplTest.java:310-337 | a new password is never stored raw when the encoder changes its input |
| UserServices.AppliedKeepsEmailsUnique | backend/src/main/java/com/phegon/FoodApp/auth_users/services/UserServiceImpl.java:118-123 | an update whose e-mail is unchanged or free keeps e-mails unique |
| UserServices.AsWrittenDeletesReferencedImage | backend/src/main/java/com/phegon/FoodApp/auth_users/services/UserServiceImpl.java:100-123 | as written, an update with a new image and a taken e-mail deletes the old image yet fails, leaving the user pointing at it |
| UserServices.Checked | backend/src/main/java/com/phegon/FoodApp/auth_users/services/UserServiceImpl.java:100-129 | a refused update makes no storage call; an accepted one behaves exactly as the code |
| UserServices.CheckedDeletesOnlyReplacedImages | backend/src/main/java/com/phegon/FoodApp/auth_users/services/UserServiceImpl.java:100-111 | every deleted image belongs to a user saved with the new image's URL |
| UserServices.ProfileCallsUnderFault | backend/src/main/java/com/phegon/FoodApp/auth_users/services/UserServiceImpl.java:100-129 | a throwing delete makes no call, a throwing upload only the delete, and otherwise every image call is made and only the save can throw |
| UserServices.UserService.GetCurrentLoggedInUser | backend/src/main/java/com/phegon/FoodApp/auth_users/services/UserServiceImpl.java:41-51 | the current user as `CurrentUser` states it |
| UserServices.UserService.UpdateOwnAccount | backend/src/main/java/com/phegon/FoodApp/auth_users/services/UserServiceImpl.java:89-135 | no current user or an invalid request changes nothing; otherwise storage and the user follow the update, e-mails staying unique; a throwing storage call or save keeps the calls before it and leaves the user as stored |
| UserServices.UserService.DeactivateOwnAccount | backend/src/main/java/com/phegon/FoodApp/auth_users/services/UserServiceImpl.java:139-165 | without a current user, or when the save throws, nothing is saved or sent; otherwise the user is saved inactive and sent one e-mail |
| UserServices.DeactivatedAccountIsLockedOut | backend/src/test/java/com/phegon/FoodApp/unit/UserServiceImplTest.java:341-381 | after deactivation the account is no longer current and login is refused as inactive |
| SecurityRules.DecideFirstMatch | backend/src/main/java/com/phegon/FoodApp/security/SecurityFilter.java:43-65 | the requirement is that of the first matching rule, whatever the later rules say |
| SecurityRules.DecideNoMatch | backend/src/main/java/com/phegon/FoodApp/security/SecurityFilter.java:66 | a request no rule matches needs an authenticated caller |
| SecurityRules.Authorize | backend/src/main/java/com/phegon/FoodApp/security/SecurityFilter.java:43-67 | permitAll always allows; otherwise no authentication is 401, and a missing authority is 403 |
| SecurityRules.OpenEndpoints | backend/src/main/java/com/phegon/FoodApp/security/SecurityFilter.java:44-47 | every request under /actuator and /api/auth is allowed |
| SecurityRules.UnderDisjoint | backend/src/main/java/com/phegon/FoodApp/security/SecurityFilter.java:44-63 | no path is under two bases that differ at some position |
| SecurityRules.PublicReads | backend/src/main/java/com/phegon/FoodApp/security/SecurityFilter.java:50-58 | GET on menus and categories is allowed without authentication |
| SecurityRules.AdminWrites | backend/src/main/java/com/phegon/FoodApp/security/SecurityFilter.java:53-63 | POST, PUT and DELETE on menus and categories, bare path included, require ADMIN: 401 without authentication, 403 without ADMIN |
| SecurityRules.OthersNeedAuthentication | backend/src/main/java/com/phegon/FoodApp/security/SecurityFilter.java:66 | any other request, PATCH on a menu included, needs only authentication |
| AuthFilters.SkippedPathsAreOpen | backend/src/main/java/com/phegon/FoodApp/security/AuthFilter.java:38-42 | every path the filter skips is open in the rules; the bare /api/auth is filtered |
| AuthFilters.GetToken | backend/src/main/java/com/phegon/FoodApp/security/AuthFilter.java:112-118 | a token is read iff the header has text and starts with "Bearer ", and the header is then "Bearer " plus the token |
| AuthFilters.GetTokenRoundTrip | backend/src/main/java/com/phegon/FoodApp/security/AuthFilter.java:112-118 | "Bearer " plus any token gives that token back; "bearer " gives none |
| AuthFilters.Decision | backend/src/main/java/com/phegon/FoodApp/security/AuthFilter.java:51-84 | no token leaves the context; authentication iff the token's e-mail has text, the user loads and the token is valid; a throwing step rejects |
| AuthFilters.AuthenticatedOnlyByBearer | backend/src/main/java/com/phegon/FoodApp/security/AuthFilter.java:51-84 | authentication happens only through a "Bearer " header whose token names an e-mail with text |
| AuthFilters.DoFilter | backend/src/main/java/com/phegon/FoodApp/security/AuthFilter.java:44-110 | skipped paths continue untouched; a rejection clears the context and goes to the entry point; otherwise the chain continues |
| AuthFilters.NoHeaderIsUnauthorized | backend/src/main/java/com/phegon/FoodApp/security/AuthFilter.java:51-84 | a request without an Authorization header to a protected path is answered 401 |

## Findings

| source | as written | input that shows it | evidently intended | confidence | as-written member | corrected member |
|---|---|---|---|---|---|---|
| backend/src/main/java/com/phegon/FoodApp/auth_users/services/UserServiceImpl.java:100-123 | the old profile image is deleted and the new one uploaded before the new e-mail is checked for uniqueness, so a refused update has already removed the image | a user with profile URL "https://bucket/profile/old.png" sends a new image and the e-mail of another user | check the e-mail before touching storage, so a refused update leaves the stored image in place | medium, not executed | UserServices.AsWrittenDeletesReferencedImage | UserServices.Checked |

`UserServices.UserService.UpdateOwnAccount` uses the corrected order, `Checked`. `AsWritten` keeps the order of the code.

## Left out

- S3, the mail service, Thymeleaf, Stripe, BCrypt, JWT parsing and signing, UUIDs and the clock are parameters.
- A failing repository save is not modelled for registration, the category operations and the cart operations. Their collaborators are in-memory maps that always succeed.
- UserServices.UserService.DeactivateOwnAccount: a failing deactivation e-mail is not modelled. The notification service sends asynchronously, so its failure does not reach the caller.
- Transactions and `@Async` mail are not modelled. Effects made before a failing step stay in place.
- ModelMapper is not modelled. The views are built field by field. A mapper exception on a read path is modelled only as the null dereferences the tests name.
- getCategoryById, getAllUsers, getOwnAccountDetails, getOrderById, getOrderItemById and countUniqueCustomers are outside the modelled core.
- Orders.OrderService.GetOrdersOfUser: orders with the same order date come highest id first. The implementation, which is not available, fixes no order for such ties.
- Orders.OrderService.PlaceOrderFromCart: the clock is taken never to run backwards. The order date `now` is no earlier than any stored order's date.
- Orders.NewOrder: a new order gets orderStatus INITIALIZED and paymentStatus PENDING, the statuses the payment flow starts from. The order tests do not assert these statuses.
- Payments.PaymentService.GetAllPayments: the order of the list, newest id first, is chosen by the model. The sort of the implementation is not available.
- The e-mail subjects and bodies of the order and payment services, and the messages of their errors, are placeholders where the implementation is not available.
- A cart whose item list is null cannot be represented. It is treated as empty.
- MenuServices.SortNewestFirst: sorts a sequence rather than the list in place. It does not state that reviews with equal ids keep their order.
- MenuServices.MenuService.GetMenus: search is plain substring containment. SQL LIKE wildcards in the search term are not modelled.
- Case conversion is ASCII only. The floating-point price comparison is modelled on integers. Long overflow on very long digit strings is not modelled.
- addCategory maps the request's id into the entity. The model always stores under a new id, so an addCategory that overwrites through a client-supplied id is not modelled.
- CategoryServices.CategoryService.GetAllCategories: the repository's order is taken to be ascending id.
- Deleting a menu that carts or orders still reference is not modelled.
- AuthFilters.DoFilter: an exception thrown further down the chain would also be caught by the filter. Only the filter's own steps are modelled. The entry point's response is not modelled.
- UserServices.UserService.UpdateOwnAccount: follows the corrected order of the Findings table, not the code's order.
