# Produit service and JWT decoding wrapper — a Dafny model

This project models the two pieces of the exam backend that hold logic of
their own, and proves properties of them:

- **The Produit service** (`ProduitServiceImpl`). The document store is a
  finite map from id to `Produit` record (`produit_service.dfy`, module
  `ProduitService`). A `Produit` has an optional id and the optional fields
  `description`, `nom` and `prix`, matching the front-end model in
  `src/main/webapp/app/entities/produit/produit.model.ts` lines 1-6. `save`,
  `update`, `findOne`, `delete` and `countAll` are map operations.
  `partialUpdate` looks the patch's id up. When the record exists, it merges
  every non-null field of the patch into it and writes it back. When it does
  not exist, it does nothing.
- **The JWT decoder wrapper and related configuration**
  (`SecurityJwtConfiguration`, module `SecurityJwt` in `security_jwt.dfy`).
  The library decoder is abstracted as the `DecodeOutcome` it produces:
  a decoded token, a failure emitted by the returned reactive value (seen by
  the `doOnError` hook), or a failure thrown while building that value (seen
  by the `catch` block). On each path, an else-if chain of substring tests on
  the failure message picks at most one of three meters: expired, invalid
  signature, malformed. The failure itself is passed on unchanged. The module
  also models the authorities converter, which uses an empty prefix and the
  configured claim name, and the single secret key shared by encoder and
  decoder.

Java's `String.contains` is modelled by `StringSearch.Contains`
(`string_search.dfy`). It is a recursive scan proved equal to the
specification "the pattern occurs at some index". Every classifier contract
is stated against that specification. `wrappers.dfy` holds `Option`, which
stands for a nullable reference or an empty `Mono`, and `Result`, which
stands for a call that returns or throws.

The store invariant `Wf` says that every record is stored under its own id.
Every operation preserves it. `PartialUpdate` requires it and a non-null
patch id. Spring Data's `findById` rejects a null id, and the REST layer
checks for a null id before it calls the service.

The two failure paths cannot both fire for one token. The `try` block only
covers building the reactive value. A failure is therefore either thrown
there or emitted later, never both. The model makes this structural: a
`DecodeOutcome` has exactly one path, so one failure is never counted twice.

## Model

| member | source | states |
|---|---|---|
| ProduitService.Put | src/main/java/com/diti5/exam/service/impl/ProduitServiceImpl.java:30 | the repository write stores the Produit under its own id, adds that id to the key set, and leaves every other record as it was |
| ProduitService.Save | src/main/java/com/diti5/exam/service/impl/ProduitServiceImpl.java:28-31 | the returned Produit carries an id (the given one, or the database-generated one for a new Produit); it is stored under that id; no other record changes; inserting a new Produit raises the count by one; the store stays well-formed |
| ProduitService.Update | src/main/java/com/diti5/exam/service/impl/ProduitServiceImpl.java:34-37 | the Produit is stored under its id and returned; every other record is unchanged and the key set gains at most that id; for an id already stored, the set of ids and the count are unchanged |
| ProduitService.FindOne | src/main/java/com/diti5/exam/service/impl/ProduitServiceImpl.java:72-75 | a record is returned exactly when the id is stored, and it is the stored record |
| ProduitService.Delete | src/main/java/com/diti5/exam/service/impl/ProduitServiceImpl.java:78-81 | afterwards the id is absent, exactly that id has left the key set, every remaining record is unchanged, and the store stays well-formed |
| ProduitService.CountAll | src/main/java/com/diti5/exam/service/impl/ProduitServiceImpl.java:67-69 | the count is the number of stored ids |
| ProduitService.Merge | src/main/java/com/diti5/exam/service/impl/ProduitServiceImpl.java:45-56 | the merged record keeps the stored id; each of description, nom, prix is the patch's value when that is non-null and the stored value otherwise |
| ProduitService.PartialUpdate | src/main/java/com/diti5/exam/service/impl/ProduitServiceImpl.java:40-59 | for an absent id: returns nothing and leaves the store unchanged; for a stored id: returns the merge of the stored record with the patch and writes it back under the same id; the store stays well-formed |
| ProduitService.PartialUpdateFields | src/main/java/com/diti5/exam/service/impl/ProduitServiceImpl.java:46-54 | after a partial update, the stored record keeps its id, and each field is the patch's value if non-null, else the previous value |
| ProduitService.EmptyPatchChangesNothing | src/main/java/com/diti5/exam/service/impl/ProduitServiceImpl.java:46-58 | a patch whose fields are all null leaves the store identical and returns the stored record |
| ProduitService.FullPatchReplaces | src/main/java/com/diti5/exam/service/impl/ProduitServiceImpl.java:46-58 | a patch with every field non-null replaces the stored record by the patch, under the same id, and returns it |
| ProduitService.MergeIdempotent | src/main/java/com/diti5/exam/service/impl/ProduitServiceImpl.java:45-57 | merging a patch twice equals merging it once |
| ProduitService.MergeCompose | src/main/java/com/diti5/exam/service/impl/ProduitServiceImpl.java:45-57 | two merges in turn equal one merge with the combined patch, where the later patch's non-null fields win |
| ProduitService.PartialUpdateIdempotent | src/main/java/com/diti5/exam/service/impl/ProduitServiceImpl.java:43-58 | applying the same patch twice gives the same store and the same reply as applying it once |
| ProduitService.PartialUpdateOnlyChangesTarget | src/main/java/com/diti5/exam/service/impl/ProduitServiceImpl.java:43-58 | a partial update keeps the set of ids, the count, and every record other than the patched one |
| ProduitService.SaveThenFindOne | src/main/java/com/diti5/exam/service/impl/ProduitServiceImpl.java:28-31 | after a save, looking up the saved id returns the saved Produit |
| ProduitService.DeleteThenFindOne | src/main/java/com/diti5/exam/service/impl/ProduitServiceImpl.java:78-81 | after a delete, the id is not found; deleting a stored id lowers the count by one; deleting an absent id changes nothing |
| StringSearch.Contains | src/main/java/com/diti5/exam/config/SecurityJwtConfiguration.java:36 | the substring test holds exactly when the pattern occurs at some index of the message |
| SecurityJwt.Classify | src/main/java/com/diti5/exam/config/SecurityJwtConfiguration.java:35-47 | expired is chosen exactly for an emitted failure whose message contains the expiry marker; malformed exactly for a thrown failure containing the parse-failure marker; invalid signature exactly when the message contains the validation marker but not the path's first-tested marker; nothing otherwise |
| SecurityJwt.Track | src/main/java/com/diti5/exam/config/SecurityJwtConfiguration.java:37-46 | a chosen metric adds one to its own counter and leaves the other two as they were; no metric changes nothing |
| SecurityJwt.Decode | src/main/java/com/diti5/exam/config/SecurityJwtConfiguration.java:31-50 | a decoded token is returned with the meters unchanged; a failure is returned as the very same error; the meters' total grows by at most one |
| SecurityJwt.EmittedExpiredCounted | src/main/java/com/diti5/exam/config/SecurityJwtConfiguration.java:35-37 | an emitted failure containing "Jwt expired at" increments exactly the expired counter, even if it also mentions a failed validation |
| SecurityJwt.EmittedInvalidSignatureCounted | src/main/java/com/diti5/exam/config/SecurityJwtConfiguration.java:36-40 | an emitted failure containing "Failed to validate the token" but not "Jwt expired at" increments exactly the invalid-signature counter |
| SecurityJwt.ThrownMalformedCounted | src/main/java/com/diti5/exam/config/SecurityJwtConfiguration.java:42-44 | a thrown failure containing the parse-failure marker increments exactly the malformed counter, even if it also mentions a failed validation |
| SecurityJwt.ThrownInvalidSignatureCounted | src/main/java/com/diti5/exam/config/SecurityJwtConfiguration.java:43-46 | a thrown failure containing the validation marker but not the parse-failure marker increments exactly the invalid-signature counter |
| SecurityJwt.AtMostOneCounter | src/main/java/com/diti5/exam/config/SecurityJwtConfiguration.java:36-47 | no counter decreases and the total grows by at most one per decoding attempt |
| SecurityJwt.PathsCountDisjointMetrics | src/main/java/com/diti5/exam/config/SecurityJwtConfiguration.java:35-47 | an emitted failure never counts as malformed and a thrown one never counts as expired |
| SecurityJwt.UnmatchedFailureNotCounted | src/main/java/com/diti5/exam/config/SecurityJwtConfiguration.java:35-48 | a failure matching neither marker of its path leaves every counter unchanged and is passed on unchanged |
| SecurityJwt.ConfiguredConverter | src/main/java/com/diti5/exam/config/SecurityJwtConfiguration.java:60-62 | the application's converter puts an empty prefix before each name and reads the configured authorities claim |
| SecurityJwt.GrantedAuthorities | src/main/java/com/diti5/exam/config/SecurityJwtConfiguration.java:60-62 | one granted authority per string of the configured claim, in order, each the prefix followed by that string; none when the claim is absent |
| SecurityJwt.Authenticate | src/main/java/com/diti5/exam/config/SecurityJwtConfiguration.java:58-69 | the principal's name is the token's subject and its authorities are the converter's granted authorities |
| SecurityJwt.ConfiguredAuthoritiesVerbatim | src/main/java/com/diti5/exam/config/SecurityJwtConfiguration.java:60-62 | with the empty prefix, the granted authority names are the authorities claim's strings verbatim |
| SecurityJwt.GetSecretKey | src/main/java/com/diti5/exam/config/SecurityJwtConfiguration.java:72-75 | the key holds the whole decoded secret and the algorithm name; an empty secret is refused |
| SecurityJwt.JwtDecoder | src/main/java/com/diti5/exam/config/SecurityJwtConfiguration.java:30 | the decoder is refused exactly when the secret is empty; otherwise it holds the key made of the whole secret and the configured algorithm, and checks that algorithm |
| SecurityJwt.JwtEncoder | src/main/java/com/diti5/exam/config/SecurityJwtConfiguration.java:53-56 | the encoder is refused exactly when the secret is empty; otherwise it signs with the key made of the whole secret and the configured algorithm |
| SecurityJwt.EncoderAndDecoderShareKey | src/main/java/com/diti5/exam/config/SecurityJwtConfiguration.java:30-55 | encoder and decoder are either both built or both refused; when built they hold the same key, made from the configured secret and algorithm, and the decoder checks with that algorithm |

## Left out

- Reactive plumbing (`Mono`/`Flux`), logging and the MongoDB driver: the store is a map and each call returns its value directly.
- Id generation on insert: the database chooses the id, so `Save` takes it as the parameter `generatedId` and requires it to be unused.
- `findAll(Pageable)` and the repository's `findAllBy`: pagination belongs to the framework.
- HTTP status handling (400, 404, 405): it lives in the REST resources, which are not part of this model.
- `prix` is a Java `Double` that is only copied, so it is the opaque type `Price` and no floating-point arithmetic is modelled.
- The MAC signing and verification, JWT parsing, and the library encoder and decoder: they are foreign library calls. The decoder becomes the `DecodeOutcome` parameter. Token issuing is modelled only as the key the encoder holds.
- Base64 decoding of the configured secret: `JwtSettings.secret` holds the decoded bytes.
- The values of `AUTHORITIES_KEY` and `JWT_ALGORITHM`: they are defined in `SecurityUtils`, which is not part of this model. They are parameters (`authoritiesKey`, `JwtSettings.algorithm`).
- SecurityJwt.GrantedAuthorities: models the authorities claim only as a collection of strings; the library converter's splitting of a single string-valued claim on spaces is not modelled. Nor is the failure of the library's granted-authority constructor on a blank name: with the configured empty prefix, a claim holding an empty or blank string makes authentication throw, while the model passes the string through.
- ProduitService.PartialUpdate: the service calls are modelled as atomic steps on the store. In the source the lookup (`findById`) and the write (`save`) are separate store calls, so a write made by another request between them is lost, and a delete made between them is undone because `save` inserts the merged record again. The unchanged-store, unchanged-key-set and idempotence properties hold only for calls that run one after another.
- ProduitService.Update: requires a non-null id. The REST layer rejects an update without an id before it reaches the service. The Java service would otherwise insert under a database-generated id, as `Save` does.
- A null failure message: the source calls `contains` on `getMessage()` without a null check. The model takes every message as a non-null string.
- The meters sink is modelled as three counters in an immutable record, so the concurrency-safety of the real counters is not modelled.
- Front-end routes and sample data, and the test fixtures: they are user-interface and test data.
