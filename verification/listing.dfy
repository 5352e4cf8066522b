/** A property listing as the API returns it. Every field may be missing;
    `kind` is the JSON key `type` and `mongoId` the key `_id`. */
module Listings {
  import opened Values

  datatype Listing = Listing(
    title: Option<string>,
    location: Option<string>,
    description: Option<string>,
    kind: Option<string>,
    price: Option<string>,
    status: Option<string>,
    mongoId: Option<string>,
    id: Option<string>,
    image: Option<string>,
    amenities: Option<seq<string>>,
    additionalImages: Option<seq<string>>)
}
