# PropertyConnect decision logic in Dafny

A model of the sequential decision logic inside the PropertyConnect real-estate
application, with proofs about it. Every piece is an immutable datatype and a
set of pure functions. The pieces are:

- **Saved-properties cart** (`CartService`, cart.dfy). There is one cart per
  user, created lazily. Adding a property already in the cart bumps its
  quantity. Removal fails in two distinct ways. Reading a missing cart gives an
  empty view.
- **Enquiry lifecycle, current controller** (`EnquiryService`, enquiry.dfy).
  It trusts the gateway headers and gates creation, listing and status updates
  by role. The status is an enum parsed without regard to case.
- **Enquiry lifecycle, older controller** (`LegacyEnquiryService`,
  enquiry_legacy.dfy). It has no role checks, an owner listing, and exact
  string statuses.
- **Gateway-header trust checks** (`GatewayHeaders`, gateway_headers.dfy). The
  cart, enquiry and user services each check the `X-USER-ID`/`X-USER-ROLE`
  headers differently.
- **User controller** (`UserController`, user_controller.dfy). It runs the
  header check, overrides the caller's user id on writes, and returns an empty
  profile by default.
- **Property service request filter** (`PropertyAdmission`,
  property_admission.dfy). `roleFilter` decides on the method, the path and
  the two headers.
- **Gateway JWT filter** (`JwtGateway`, jwt_gateway.dfy). It classifies public
  routes and extracts the Bearer token (section 2.1 of RFC 6750). It forwards
  the token's claims as identity headers. Token verification (RFC 7519) is a
  parameter: a function from the token to its claims, or to nothing.
- **Property moderation and search** (`PropertyService`,
  property_service.dfy; `PropertySpecification`,
  property_specification.dfy). Listings go PENDING → APPROVED | REJECTED. The
  admin listing defaults its status and upper-cases it. The search filters are
  predicates over a property record.
- **Frontend auth store** (`AuthSlice`, auth_slice.dfy). This covers the
  initial state hydrated from storage, every reducer, and the selectors.
- **Add-property form** (`AddPropertyForm`, add_property.dfy). This covers
  trimming, the field validator, the http/https scheme rule, `setPrimary` and
  `addImageField`.
- **Route guards** (`RouteGuards`, route_guards.dfy). This covers the older
  `RoleRoute`, and the `PrivateRoute`/`RoleRoute` pair with its hydration wait.

Shared helpers:

- `Wrappers`: `Option`, `Result`, `Outcome`.
- `Seqs`: first match, filter, count.
- `Text`: Java and .NET white space, ASCII case, prefixes.
- `Js`: JavaScript `trim`, UTF-16 length, `encodeURIComponent`, truthiness of
  numbers.

Modelling conventions:

- **Tables.** Database tables are values. A lookup, an insert or an update
  returns the new table inside `Ok`. An error carries no table, so a refused
  request leaves the store as it was.
- **Identities.** A request without a key gets the next value of a `nextId`
  counter kept with the rows. A request that carries a key is handled the way
  its store handles it. The enquiry services insert the key as given; a key
  already stored makes the insert fail. The JPA services merge: the stored
  row with that key is overwritten, and a key no row holds gets a fresh value.
- **Time and parsing.** The clock is a `now` parameter. JavaScript's `Number()`
  on strings is a `toNumber` parameter.
- **Dependencies.** The address table is modelled. For the profile repository
  and the downstream clients, the stored value or the call's arguments are
  parameters or results.

The enum that `Enquiry.cs` declares is not part of this model. Its members are
taken to be NEW, RESPONDED and CLOSED, the same names the older controller
accepts as strings.

## Model

| member | source | states |
|---|---|---|
| GatewayHeaders.CartCheck | CartService/CartService/Controllers/CartController.cs:149-164 | the cart service admits a header pair iff the user id is present and the role is exactly CUSTOMER or ADMIN; an "invalid role" rejection only ever concerns a non-empty role |
| GatewayHeaders.EnquiryCheck | enquiry-service/EnquiryService/EnquiryService/Controllers/EnquiryController.cs:127-136 | the enquiry service admits iff the user id is present and the role is non-empty; its only rejection is "missing headers" |
| GatewayHeaders.UserCheck | user-service/src/main/java/com/app/userservice/controller/UserController.java:147-167 | the user service admits iff the user id is present and the role is exactly CUSTOMER or ADMIN; "missing headers" is reported iff a header is null |
| GatewayHeaders.UserRejectionStatus | user-service/src/main/java/com/app/userservice/controller/UserController.java:151-166 | missing headers are answered 401 and an unknown role 403, and conversely |
| GatewayHeaders.CartAndUserAdmitTheSame | user-service/src/main/java/com/app/userservice/controller/UserController.java:151-166 | the cart and user checks admit exactly the same header pairs |
| GatewayHeaders.EmptyRoleClassifiedDifferently | CartService/CartService/Controllers/CartController.cs:153-157 | an empty role is "missing" for the cart and enquiry services but an invalid role (403) for the user service |
| GatewayHeaders.EnquiryAdmitsMore | enquiry-service/EnquiryService/EnquiryService/Controllers/EnquiryController.cs:131-135 | whatever the cart service admits the enquiry service admits; a made-up non-empty role passes the enquiry check but is an invalid role for the cart and user services |
| CartService.FindItem | CartService/CartService/Controllers/CartController.cs:48-50 | the index of the first line for the property, present iff the cart holds a line for it |
| CartService.AddItem | CartService/CartService/Controllers/CartController.cs:48-64 | an existing line gets quantity + 1 with its price and every other line unchanged; otherwise one line (property, request price, quantity 1) is appended |
| CartService.EnsureCart | CartService/CartService/Controllers/CartController.cs:36-46 | the user has exactly one cart afterwards: an existing cart is kept as it is, and a missing one is created empty; no other user's cart changes |
| CartService.AddToCart | CartService/CartService/Controllers/CartController.cs:24-69 | refused headers give an error before any cart access; accepted headers always succeed, and the caller's cart is the add step applied to their (possibly new) cart, with every other cart unchanged |
| CartService.GetCart | CartService/CartService/Controllers/CartController.cs:75-109 | refused headers give an error; a user without a cart gets their id with no items (never an error); otherwise each line's property, price and quantity are projected unchanged and in order |
| CartService.RemoveItem | CartService/CartService/Controllers/CartController.cs:115-143 | refused headers, "cart not found" and "item not found" are distinct errors that change nothing; otherwise exactly the first matching line is removed and no other cart changes |
| CartService.QuantityOfConcat | CartService/CartService/Controllers/CartController.cs:48-64 | the copies of a property held by a cart add up over a split of its lines |
| CartService.AddItemAddsOneCopy | CartService/CartService/Controllers/CartController.cs:48-64 | adding a property puts exactly one more copy of it in the cart and leaves the count of every other property unchanged |
| CartService.QuantityOfUniqueLine | CartService/CartService/Controllers/CartController.cs:48-55 | with one line per property, the copies of a property are its line's quantity, or zero without a line |
| CartService.AddItemKeepsWellFormed | CartService/CartService/Controllers/CartController.cs:48-64 | adding keeps "at most one line per property" and "every quantity at least 1" |
| CartService.AddToCartKeepsWellFormed | CartService/CartService/Controllers/CartController.cs:24-69 | the whole add action keeps every cart in the table well formed |
| CartService.RemoveItemKeepsWellFormed | CartService/CartService/Controllers/CartController.cs:128-140 | removal keeps every cart well formed and leaves the cart with no line for the removed property |
| CartService.RemoveUndoesAddOfNewProperty | CartService/CartService/Controllers/CartController.cs:56-64 | adding a property the cart lacks and then removing it gives the original table back |
| CartService.AddThenRemoveLeavesEmptyCart | CartService/CartService/Controllers/CartController.cs:36-46 | for a user without a cart, add then remove leaves an empty cart row behind, not the original table |
| CartService.AddTwiceThenRemove | CartService/CartService/Controllers/CartController.cs:24-143 | adding listing 42 twice, the second time at another price, gives one line of quantity 2 at the first price; removing it leaves the user's cart empty |
| EnquiryService.ParseStatus | enquiry-service/EnquiryService/EnquiryService/Controllers/EnquiryController.cs:107-113 | a status text parses to a status iff it equals that status's name ignoring ASCII case |
| EnquiryService.ParseStatusRoundTrip | enquiry-service/EnquiryService/Models/Enquiry.cs:26 | every status name, in upper or lower case, parses back to its status |
| EnquiryService.CreateEnquiry | enquiry-service/EnquiryService/EnquiryService/Controllers/EnquiryController.cs:22-42 | an invalid body is a bad request, missing headers are refused, a non-CUSTOMER is forbidden, and a body id already stored is a duplicate key; a creation succeeds iff a customer posts a valid body with id 0 or a free id, and the appended enquiry has the caller as customer, status NEW, both timestamps `now`, and the body's id or, for 0, the next id; the counter ends past the new id |
| EnquiryService.CounterAfter | enquiry-service/EnquiryService/Models/Enquiry.cs:9-11 | after an insert the identity counter is past the inserted id and never goes back |
| EnquiryService.ExplicitIdAddressesNewRecord | enquiry-service/EnquiryService/EnquiryService/Controllers/EnquiryController.cs:38-39 | a free explicit id becomes the new enquiry's key: an update of that id finds the new row, and later generated ids lie beyond it |
| EnquiryService.CreateIgnoresBodyCustomerId | enquiry-service/EnquiryService/EnquiryService/Controllers/EnquiryController.cs:33-34 | the customer id in the body has no effect on the outcome |
| EnquiryService.CreateKeepsWellFormed | enquiry-service/EnquiryService/EnquiryService/Controllers/EnquiryController.cs:22-42 | creation keeps ids unique and below the next id |
| EnquiryService.ListAllForAdmin | enquiry-service/EnquiryService/EnquiryService/Controllers/EnquiryController.cs:48-62 | succeeds iff the caller is present and ADMIN, and then returns every enquiry; other present roles are forbidden |
| EnquiryService.ListForCustomer | enquiry-service/EnquiryService/EnquiryService/Controllers/EnquiryController.cs:68-83 | succeeds iff the caller is present and CUSTOMER, and then returns exactly the enquiries whose customer is the caller |
| EnquiryService.FindEnquiry | enquiry-service/EnquiryService/EnquiryService/Controllers/EnquiryController.cs:101-105 | the first row with the id, absent iff no row has it |
| EnquiryService.UpdateStatus | enquiry-service/EnquiryService/EnquiryService/Controllers/EnquiryController.cs:89-121 | checks run in the order headers, forbidden, not found, bad request; it succeeds iff an ADMIN caller names a stored id and a status name, and a success sets exactly the status and `updatedAt` of that row and nothing else |
| EnquiryService.UpdateKeepsWellFormed | enquiry-service/EnquiryService/EnquiryService/Controllers/EnquiryController.cs:115-116 | a status update keeps the table well formed |
| EnquiryService.AnyStatusFromAnyStatus | enquiry-service/EnquiryService/EnquiryService/Controllers/EnquiryController.cs:115-116 | an administrator can move any stored enquiry to any status, whatever its current status |
| EnquiryService.EnquiryWalkthrough | enquiry-service/EnquiryService/EnquiryService/Controllers/EnquiryController.cs:22-121 | a customer's enquiry starts NEW with the caller as customer whatever the body claims; an administrator can set it to RESPONDED, and the customer is forbidden to |
| LegacyEnquiryService.CreateEnquiry | enquiry-service/EnquiryService/Controllers/EnquiryController.cs:18-30 | fails iff the body carries an id already stored; otherwise the body's customer, owner, property and message are appended as sent, with status "NEW", both timestamps `now`, and the body's id or, for 0, the next id |
| LegacyEnquiryService.CreateKeepsWellFormed | enquiry-service/EnquiryService/Controllers/EnquiryController.cs:18-30 | creation keeps ids unique and every status one of the three names |
| LegacyEnquiryService.ListForOwner | enquiry-service/EnquiryService/Controllers/EnquiryController.cs:32-41 | exactly the enquiries with the given owner |
| LegacyEnquiryService.ListForCustomer | enquiry-service/EnquiryService/Controllers/EnquiryController.cs:43-52 | exactly the enquiries with the given customer |
| LegacyEnquiryService.FindEnquiry | enquiry-service/EnquiryService/Controllers/EnquiryController.cs:60-62 | the first row with the id, absent iff no row has it |
| LegacyEnquiryService.UpdateStatus | enquiry-service/EnquiryService/Controllers/EnquiryController.cs:54-76 | an unknown id is not found before the status is looked at; only the exact strings NEW, RESPONDED and CLOSED are accepted; a success sets exactly the status and `updatedAt` |
| LegacyEnquiryService.UpdateKeepsWellFormed | enquiry-service/EnquiryService/Controllers/EnquiryController.cs:64-72 | the accepted status strings are the only statuses a record ever holds |
| LegacyEnquiryService.LowerCaseStatusSplitsVariants | enquiry-service/EnquiryService/Controllers/EnquiryController.cs:64-69 | a lower-case status name is accepted by the current controller and refused by the older one |
| UserController.SaveProfile | user-service/src/main/java/com/app/userservice/controller/UserController.java:28-41 | refused headers give 401/403; otherwise the profile saved (on create and on update) carries the header user id, overriding the body, with the body's other columns |
| UserController.GetProfile | user-service/src/main/java/com/app/userservice/controller/UserController.java:43-58 | refused headers give 401/403; a missing profile reads as an empty profile, never an error |
| UserController.AddAddress | user-service/src/main/java/com/app/userservice/controller/UserController.java:80-93 | refused headers give 401/403; otherwise the saved address carries the header user id and the body's columns; a body id naming a stored address overwrites that row in place, and any other body is appended under the next id |
| UserController.GetAddresses | user-service/src/main/java/com/app/userservice/controller/UserController.java:95-105 | refused headers give 401/403; otherwise exactly the addresses of the header user id |
| UserController.SaveProfileAndAddress | user-service/src/main/java/com/app/userservice/controller/UserController.java:107-140 | refused headers give 401/403; otherwise the combined save is called with the header user id |
| UserController.AddedAddressListedForCallerOnly | user-service/src/main/java/com/app/userservice/controller/UserController.java:80-105 | an address added by a caller shows up in that caller's listing and adds nothing to any other user's; without a stored body id every other user's listing is unchanged |
| UserController.BodyIdTakesOverAddress | user-service/src/main/java/com/app/userservice/service/UserServiceImpl.java:35-38 | a body carrying the id of another user's address moves that row to the caller: it leaves the owner's listing and joins the caller's |
| PropertyAdmission.RoleFilter | PropertyService/src/main/java/com/app/config/SecurityConfig.java:55-129 | OPTIONS and public GETs pass; 401 iff a non-OPTIONS, non-public request lacks a header; 403 iff an admin path is reached with both headers and a role other than ADMIN; no other status is ever sent |
| PropertyAdmission.PassOnExactly | PropertyService/src/main/java/com/app/config/SecurityConfig.java:71-126 | the requests passed on, in closed form: preflight, a public GET, or both headers present with ADMIN on admin paths |
| PropertyAdmission.WriteToPublicPathNeedsHeaders | PropertyService/src/main/java/com/app/config/SecurityConfig.java:85-105 | a non-GET to a path that is public for reads still needs the headers |
| PropertyAdmission.PublicCheckShadowsAdminCheck | PropertyService/src/main/java/com/app/config/SecurityConfig.java:85-124 | a GET to `/properties/search/approve` is an admin path and still passes with no headers, because the public check runs first |
| PropertyAdmission.PresenceOnly | PropertyService/src/main/java/com/app/config/SecurityConfig.java:95-105 | off admin paths, any header values pass, even a made-up role |
| JwtGateway.BearerToken | api-gateway/src/main/java/com/adpp/gateway/filter/JwtAuthenticationFilter.java:59-67 | a token is extracted iff the header is present and starts with "Bearer ", and the header is then exactly "Bearer " followed by the token |
| JwtGateway.BearerRoundTrip | api-gateway/src/main/java/com/adpp/gateway/filter/JwtAuthenticationFilter.java:67 | extraction inverts the `Bearer <token>` format |
| JwtGateway.LowerCaseSchemeRefused | api-gateway/src/main/java/com/adpp/gateway/filter/JwtAuthenticationFilter.java:59 | the scheme is matched case-sensitively, so "bearer " is refused |
| JwtGateway.GatewayFilter | api-gateway/src/main/java/com/adpp/gateway/filter/JwtAuthenticationFilter.java:24-100 | public routes are forwarded unmodified; elsewhere a missing or non-Bearer header, a refused token or a missing claim gives 401; a Bearer token that verifies with both claims is forwarded; a forward sets X-USER-ID and X-USER-ROLE to the token's claims and keeps the path |
| JwtGateway.ServicePublicIsGatewayPublic | api-gateway/src/main/java/com/adpp/gateway/filter/JwtAuthenticationFilter.java:35-46 | every route the property service serves without identity is public at the gateway too |
| JwtGateway.ProtectedForwardCarriesClaims | api-gateway/src/main/java/com/adpp/gateway/filter/JwtAuthenticationFilter.java:73-88 | on a protected route the property service receives both identity headers from the token, so its 401 cannot fire |
| JwtGateway.ForgedIdentityOnPublicRoute | api-gateway/src/main/java/com/adpp/gateway/filter/JwtAuthenticationFilter.java:35-48 | client-sent identity headers pass untouched on public routes: a tokenless PUT claiming ADMIN to `/properties/search/approve` gets past both filters |
| PropertyService.AddProperty | PropertyService/src/main/java/com/app/service/PropertyService.java:27-31 | the listing is stored PENDING whatever status it was submitted with; a body id naming a stored listing overwrites that row in place, and any other body is appended under the next id |
| PropertyService.FindProperty | PropertyService/src/main/java/com/app/service/PropertyService.java:40-42 | the first row with the id, absent iff no row has it |
| PropertyService.ApproveProperty | PropertyService/src/main/java/com/app/service/PropertyService.java:37-51 | an unknown id is "not found", a non-PENDING listing is refused; it succeeds iff the id's first row is PENDING, and a success changes only that row's status, to APPROVED |
| PropertyService.RejectProperty | PropertyService/src/main/java/com/app/service/PropertyService.java:53-67 | an unknown id is "not found", a non-PENDING listing is refused; it succeeds iff the id's first row is PENDING, and a success changes only that row's status, to REJECTED |
| PropertyService.AddKeepsWellFormed | PropertyService/src/main/java/com/app/service/PropertyService.java:27-31 | adding keeps ids unique and every status a moderation status |
| PropertyService.ModerationKeepsWellFormed | PropertyService/src/main/java/com/app/service/PropertyService.java:37-67 | approving and rejecting keep the table well formed |
| PropertyService.DecidedIsTerminal | PropertyService/src/main/java/com/app/service/PropertyService.java:44-47 | APPROVED and REJECTED listings can be neither approved nor rejected |
| PropertyService.SubmittedIsFound | PropertyService/src/main/java/com/app/service/PropertyService.java:27-31 | a submitted listing, new or merged onto a stored one, is the row its id finds |
| PropertyService.ModerateOnce | PropertyService/src/main/java/com/app/service/PropertyService.java:27-67 | a submitted listing can be approved or rejected once, and after that neither action succeeds |
| PropertyService.ResubmitReopensDecided | PropertyService/src/main/java/com/app/service/PropertyService.java:27-31 | resubmitting a stored listing under its id puts it back to PENDING, so it can be approved or rejected again |
| PropertyService.ListingStatus | PropertyService/src/main/java/com/app/service/PropertyService.java:78-80 | a null or blank status means PENDING; otherwise the upper-cased input |
| PropertyService.PropertiesByStatus | PropertyService/src/main/java/com/app/service/PropertyService.java:74-86 | exactly the rows whose status equals the listing status |
| PropertyService.ListingIgnoresAsciiCase | PropertyService/src/main/java/com/app/service/PropertyService.java:78-80 | asking in lower case lists the same rows as asking in upper case |
| PropertyService.ApprovedProperties | PropertyService/src/main/java/com/app/service/PropertyService.java:91-98 | exactly the APPROVED rows |
| PropertyService.FilterProperties | PropertyService/src/main/java/com/app/service/PropertyService.java:100-115 | exactly the rows matching all four filters and APPROVED, so search never returns an unapproved listing |
| PropertyService.GetPropertyById | PropertyService/src/main/java/com/app/service/PropertyService.java:117-122 | succeeds iff some row has the id, and returns that row; otherwise "not found" |
| PropertyService.ApproveMakesPublic | PropertyService/src/main/java/com/app/service/PropertyService.java:49 | the public listing afterwards is exactly the one before plus the approved listing |
| PropertySpecification.PriceBetweenExactly | PropertyService/src/main/java/com/app/specification/PropertySpecification.java:44-60 | each present price bound is inclusive, an absent one imposes nothing, and a NULL price fails every present bound |
| PropertySpecification.BlankCityVersusBlankStatus | PropertyService/src/main/java/com/app/specification/PropertySpecification.java:13-32 | a blank city or type filter imposes nothing, but a blank status filter is an equality test |
| PropertySpecification.NullPriceOnlyUnbounded | PropertyService/src/main/java/com/app/specification/PropertySpecification.java:42-61 | a row with NULL price passes only the unbounded price filter |
| PropertySpecification.StatusShortcutsExclusive | PropertyService/src/main/java/com/app/specification/PropertySpecification.java:68-78 | the three shortcuts are the status equality tests and no row satisfies two of them |
| AuthSlice.InitialState | frontend/src/store/authSlice.js:15-56 | a session (token and user) is restored iff token, user id and role are all stored; the state is loaded with no pending count or logout reason; the saved count survives only for a CUSTOMER session, and is 0 when none is stored |
| AuthSlice.SetAuth | frontend/src/store/authSlice.js:66-86 | a missing token or user changes nothing; otherwise the token and user are set, the state is loaded, the logout reason cleared, and a non-CUSTOMER role zeroes the saved count |
| AuthSlice.SetUser | frontend/src/store/authSlice.js:88-103 | never changes the token; a missing user changes nothing; otherwise it sets the user and loaded, zeroing the saved count for a non-CUSTOMER |
| AuthSlice.ClearAuth | frontend/src/store/authSlice.js:105-117 | token and user are cleared, both counters zeroed, and the logout reason is the given reason or "manual" |
| AuthSlice.SetPendingCount | frontend/src/store/authSlice.js:123-125 | only the pending count changes; a falsy payload stores 0 |
| AuthSlice.DecrementPendingCount | frontend/src/store/authSlice.js:127-131 | a no-op unless the count is above 0, and then one less |
| AuthSlice.SetSavedCount | frontend/src/store/authSlice.js:137-145 | only the saved count changes; a falsy or NaN number stores 0 |
| AuthSlice.IncrementSavedCount | frontend/src/store/authSlice.js:147-154 | the saved count goes up by one and nothing else changes |
| AuthSlice.DecrementSavedCount | frontend/src/store/authSlice.js:156-165 | a no-op unless the count is above 0, and then one less |
| AuthSlice.DecrementKeepsCount | frontend/src/store/authSlice.js:127-131 | decrementing a count never goes below zero and is a no-op at zero |
| AuthSlice.ReduceKeepsCounts | frontend/src/store/authSlice.js:66-165 | every reducer keeps both badge counters whole and non-negative when given count payloads |
| AuthSlice.ReduceAllKeepsCounts | frontend/src/store/authSlice.js:66-165 | the counters stay whole and non-negative through any run of actions |
| AuthSlice.NegativePayloadIsStored | frontend/src/store/authSlice.js:137-139 | the setters do not clamp: a negative number is stored as it is |
| AuthSlice.SessionSelectors | frontend/src/store/authSlice.js:180-184 | after a successful setAuth the user is logged in, and admin iff the role is "ADMIN"; after clearAuth the user is neither |
| AuthSlice.HydratedBadge | frontend/src/store/authSlice.js:49-52 | a stored CUSTOMER session keeps its badge; a stored ADMIN session starts at 0 and is an admin |
| AddPropertyForm.TrimmedIsStable | frontend/src/features/customer/AddProperty.jsx:36-47 | trimming is idempotent; price, area and type are not trimmed; a blank city trims to empty |
| AddPropertyForm.SchemeByPrefix | frontend/src/features/customer/AddProperty.jsx:16-23 | the URL's scheme is a given lower-case scheme iff the lower-cased URL starts with that scheme and a colon |
| AddPropertyForm.ValidUrlByPrefix | frontend/src/features/customer/AddProperty.jsx:16-23 | a URL is accepted iff, lower-cased, it starts with "http:" or "https:" |
| AddPropertyForm.HasUrlAfterTrim | frontend/src/features/customer/AddProperty.jsx:141 | an image has a URL iff its trimmed URL text has positive length |
| AddPropertyForm.ImagesCheck | frontend/src/features/customer/AddProperty.jsx:141-142 | the images error is raised iff no image has a non-blank URL |
| AddPropertyForm.UrlChecks | frontend/src/features/customer/AddProperty.jsx:144-149 | one entry per image, an error exactly at the images whose non-blank URL is not http or https |
| AddPropertyForm.Check | frontend/src/features/customer/AddProperty.jsx:102-155 | the image errors: "no URL" iff no image has one, a URL error exactly at bad URLs, and a primary error iff the list is non-empty and does not have exactly one primary |
| AddPropertyForm.LengthFieldErrors | frontend/src/features/customer/AddProperty.jsx:106-115 | title and description errors iff the trimmed text is under 3 (resp. 10) UTF-16 units, "required" iff it is blank |
| AddPropertyForm.RequiredFieldErrors | frontend/src/features/customer/AddProperty.jsx:110-130 | property type, address line, city and state errors iff the (trimmed) text is empty |
| AddPropertyForm.NumberFieldErrors | frontend/src/features/customer/AddProperty.jsx:118-135 | price and area errors iff the text is not a number above 0; a pincode error iff the trimmed text is not exactly six ASCII digits |
| AddPropertyForm.ChecksPass | frontend/src/features/customer/AddProperty.jsx:106-135 | each text check passes exactly on the texts a submittable form has |
| AddPropertyForm.TextSlotsExactly | frontend/src/features/customer/AddProperty.jsx:105-135 | no text field has an error iff the trimmed texts are acceptable |
| AddPropertyForm.ImageSlotsExactly | frontend/src/features/customer/AddProperty.jsx:137-155 | no image error iff some image has a URL, no URL is bad, and exactly one image is primary |
| AddPropertyForm.ValidateAllExactly | frontend/src/features/customer/AddProperty.jsx:102-158 | the validator succeeds iff the form is acceptable, field by field |
| AddPropertyForm.FreshFormErrors | frontend/src/features/customer/AddProperty.jsx:4-27 | the untouched form has "required" errors on title, city and pincode, the images error and no URL error, but no primary error, since its one row is primary |
| AddPropertyForm.SetPrimary | frontend/src/features/customer/AddProperty.jsx:86-87 | same length and URLs; image `i` is primary iff `i` is the index |
| AddPropertyForm.SetPrimaryLeavesOnePrimary | frontend/src/features/customer/AddProperty.jsx:86-87 | after setPrimary with an index in the list, exactly one image is primary and the primary error is gone |
| AddPropertyForm.AddImageField | frontend/src/features/customer/AddProperty.jsx:97-98 | the old rows unchanged, then one blank non-primary row |
| AddPropertyForm.AddImageFieldKeepsPrimaryCount | frontend/src/features/customer/AddProperty.jsx:97-98 | adding a row keeps the primary count |
| AddPropertyForm.AddImageFieldAddsEmptySlot | frontend/src/features/customer/AddProperty.jsx:97-98 | on a non-empty list the errors stay the same, apart from one more empty URL slot |
| AddPropertyForm.AddImageFieldKeepsVerdict | frontend/src/features/customer/AddProperty.jsx:97-98 | adding a row never changes whether the image list is acceptable |
| AddPropertyForm.AddImageFieldToEmptyList | frontend/src/features/customer/AddProperty.jsx:138-154 | on an empty list no primary error is raised, but after adding a row it is, because the new row is not primary |
| RouteGuards.NormalizeRole | frontend/src/routes/ProtectedRoute.jsx:68-70 | an array role becomes its first element (nothing when empty); other roles are kept |
| RouteGuards.RoleAdmittedExactly | frontend/src/routes/ProtectedRoute.jsx:72-78 | an empty list admits anyone; otherwise the normalised role must be a string in the list |
| RouteGuards.LoginRedirect | frontend/src/routes/ProtectedRoute.jsx:57-66 | the login URL followed by a URI-encoded text: every character after the prefix is URI-safe |
| RouteGuards.LoginRedirectInjective | frontend/src/routes/ProtectedRoute.jsx:27-29 | two locations with the same login redirect have the same path and query, so the redirect loses nothing |
| RouteGuards.LegacyRoleRoute | frontend/src/routes/RoleRoute.jsx:5-40 | no token redirects to login with the bare pathname; a logged-in user is sent home unless admitted; it renders iff logged in and admitted |
| RouteGuards.PrivateRoute | frontend/src/routes/ProtectedRoute.jsx:11-36 | it waits iff not loaded; once loaded, no token redirects to login; it renders iff loaded with a token |
| RouteGuards.ProtectedRoleRoute | frontend/src/routes/ProtectedRoute.jsx:41-81 | it waits iff not loaded, checked before the token; then a login redirect, then a home redirect when not admitted; it renders iff loaded, logged in and admitted |
| RouteGuards.PrivateIsUnrestrictedRoleRoute | frontend/src/routes/ProtectedRoute.jsx:11-81 | PrivateRoute is RoleRoute with no role list |
| RouteGuards.RoleRoutesAgree | frontend/src/routes/RoleRoute.jsx:15-39 | once hydrated, the two RoleRoutes render and send home on the same states, and differ only in the login redirect's text |
| RouteGuards.LegacyDropsSearch | frontend/src/routes/RoleRoute.jsx:18 | the older guard's decision does not depend on the query string |
| RouteGuards.ArrayRoleUsesFirst | frontend/src/routes/RoleRoute.jsx:25-36 | an array role is judged by its first element alone; an empty array, or a nested one, passes only an empty list |
| RouteGuards.AdminOnlyRoute | frontend/src/routes/ProtectedRoute.jsx:72-80 | an ADMIN session passes an ADMIN-only guard and a CUSTOMER session is sent home |
| RouteGuards.SessionOpensAndClosesRoutes | frontend/src/routes/ProtectedRoute.jsx:24-35 | after logout every protected page redirects to login; after a successful login a private page renders |
| Js.Trim | frontend/src/features/customer/AddProperty.jsx:39-44 | the result has no white space at either end, is empty iff the input is blank, and is no longer |
| Js.TrimUndoesPadding | frontend/src/features/customer/AddProperty.jsx:39-44 | trimming removes any white-space padding around a text that has none at its ends |
| Js.TrimIdempotent | frontend/src/features/customer/AddProperty.jsx:36-47 | trimming twice is trimming once |
| Js.Utf16Length | frontend/src/features/customer/AddProperty.jsx:107 | the JavaScript length is the number of characters plus the number outside the Basic Multilingual Plane |
| Js.Utf16LengthAppend | frontend/src/features/customer/AddProperty.jsx:107 | the length of a concatenation is the sum of the lengths |
| Js.EncodeUriComponent | frontend/src/routes/ProtectedRoute.jsx:27-29 | every output character is URI-safe, unreserved text is unchanged, and the output is never shorter |
| Js.Utf8RoundTrip | frontend/src/routes/ProtectedRoute.jsx:27-29 | a UTF-8 sequence's lead byte gives its length, and its bytes spell the code point back |
| Js.EncodeCharsApart | frontend/src/routes/ProtectedRoute.jsx:27-29 | two characters' encodings at the head of the same text are the same character's: no encoding is a proper prefix of another |
| Js.EncodeUriComponentInjective | frontend/src/routes/ProtectedRoute.jsx:27-29 | different texts encode to different texts |

## Left out

- HTTP plumbing is not modelled:
  - header and body binding;
  - the ASP.NET model-validation pipeline, beyond the `[Required]` check on an enquiry's message;
  - response bodies and message texts;
  - the mapping from the cart service's `UnauthorizedAccessException` to a status code.
  Each refusal is a distinct error value instead.
- CartService.AddItem: the quantity is an unbounded integer, so the 32-bit wrap-around of `Quantity += 1` at `int.MaxValue` is not modelled. A cart would need two billion adds.
- The decimal cart price is an integer (the smallest currency unit). Property prices and the `Double` price bounds are exact reals, so NaN and rounding are not modelled.
- Database behaviour is not modelled:
  - collation, since string equality is exact;
  - identity generation beyond a counter: MySQL's increment settings and the values a failed insert uses up;
  - transactions and the read-modify-write race on the cart, since the model is sequential.
- EnquiryService.ParseStatus: only the three names, ignoring ASCII case. The numeric, comma-separated and white-space-padded forms `Enum.TryParse` also accepts are not modelled.
- PropertyService.ListingStatus: Java's `toUpperCase` is modelled on ASCII letters only. Other characters are kept, so locale-sensitive mappings are not modelled.
- PropertyService.PropertiesByStatus: the paging of `getPropertiesByStatusPaged` is not modelled. The result is the full filtered list.
- The `Property` entity's other columns are not modelled. Property.java is not part of this model; the record holds the columns the filters and the moderation flow read.
- The UserProfile and Address columns other than the keys are opaque. The profile repository and the downstream clients are not modelled; their results are parameters. The address table is modelled as rows with a `nextId` counter.
- UserController.SaveProfile: states the profile handed to `createOrUpdateProfile`. What `save` then does with a body id is not modelled, because the profile table is not.
- PropertyService.AddProperty: a body id that no row holds is inserted under a fresh value, as Hibernate before 6.6 merges a detached entity. Hibernate 6.6 and later refuse such a merge with an error, which is not modelled. Property.java is not part of this model; its key is taken to be a generated `Long`, as the `Long id` path variables suggest.
- UserController.AddAddress: the same merge rule as for properties, with the same Hibernate caveat. Address.java is not part of this model; its key is the `Long` of `JpaRepository<Address, Long>`.
- LegacyEnquiryService.CreateEnquiry: a duplicate key throws out of the action, and no handler is registered for it. The resulting status code is not modelled.
- JwtGateway.GatewayFilter: header names are matched exactly, not case-insensitively as HTTP requires. Token verification is a parameter, so signatures and expiry (`JwtUtil`) are not modelled.
- The gateway's route table and path rewriting are not modelled. The path the gateway sees is taken to be the path the property service sees.
- AuthService's role default, the password hashing, and `PropertyController.java` are not modelled. The controller calls service methods that no longer exist.
- `PrivateRoute.jsx`, `AdminRoute.jsx`, the page components and `frontend/src/api/*.js` are not modelled. They are rendering and network calls.
- The `localStorage` writes in the auth reducers are not modelled. Reads are the `Storage` record given to the initial state.
- AuthSlice.SetPendingCount: the payload is a number or absent. Payloads of other JavaScript types (strings, objects) are not modelled, and infinities are not modelled.
- JavaScript's `Number()` on strings is a parameter (`toNumber`), not a parser.
- AddPropertyForm.IsValidUrl: reduced to the scheme rule, so host validation is not modelled. The URL parser's stripping of leading C0 controls and spaces is also not modelled. A URL such as "http://" with no host is accepted by the model, but the browser parser refuses it.
- The two "checking session/permissions" placeholders are one `Waiting` outcome.
- The form's submit (the axios POST and the success and error messages) is not modelled.
- The live clearing of field errors in `handleChange`, `handleImageChange` and `setPrimary` is not modelled. The model computes the error record `validateAll` stores.
- `Text.ToLowerAscii` and `Text.ToUpperAscii` do not model Unicode case mapping. `String.prototype.trim` is modelled on its full white-space set.
