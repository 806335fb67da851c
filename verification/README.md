# Tag-manager domain guard, modelled in Dafny

The guard script restricts a tag-management (analytics) integration to three
domains: `healthhub.sg`, `www.healthhub.sg` and `eservices.healthhub.sg`. It
reads the page's hostname once. A host is authorised when, for some listed
domain `D`, it equals `D` or ends with `"." + D`. On an unauthorised host the
script does four things:

- it logs an error;
- it overwrites every own enumerable entry of `window.google_tag_manager`, if that
  registry exists, with a stand-in container whose `dataLayer.reset` does
  nothing and whose `dataLayer.push` returns 0;
- it replaces `window.dataLayer` with an empty array whose `push` only logs a
  warning and returns 0;
- it sends one `sendBeacon` report naming the host, if the browser has
  `sendBeacon`.

On an authorised host it only logs.

The project has two modules:

- `domains.dfy`, module `Domains`: the allow-list and the host predicate as
  pure functions. `IsAllowed` is the `some` over the list. The lemmas cover
  exact matches, subdomains of any depth, soundness (a match is aligned on a
  dot), monotonicity in the list, and the look-alike hosts on the script's
  own list.
- `guard.dfy`, module `Guard`: the page globals as a `Window` class whose
  fields the guard updates in place.
  - `Window.Guard` runs the script body. Its `for...in` loop disables the
    registry one entry at a time.
  - `Window.Push` is a later `dataLayer.push` call.
  - Both methods are proved against the specification functions `GuardSpec`
    and `PushSpec`, which work on an `Env` snapshot. The lemmas about those
    functions state what a refused page looks like after any series of
    pushes.

The hostname is a parameter of `Guard`. Console output is a `log` sequence of
level-tagged entries. A sent beacon is recorded as its `unauthorizedDomain`
in a `reports` sequence.

## Model

| member | source | states |
|---|---|---|
| `Domains.EndsWith` | script.js:14 | `String.prototype.endsWith` as the callback uses it: the suffix fits and agrees with the string character by character at the end |
| `Domains.Matches` | script.js:14 | the `some` callback: the host equals the domain, or is longer, has a dot just before the domain's position and ends with the domain |
| `Domains.EndsWithTransitive` | script.js:14 | a suffix of a suffix of a host is a suffix of the host |
| `Domains.IsAllowed` | script.js:13-15 | the host is allowed exactly when some listed domain equals it or is, after a dot, a suffix of it (both directions) |
| `Domains.ExactHostAllowed` | script.js:13-14 | a host spelled exactly like a listed domain is allowed |
| `Domains.SubdomainMatches` | script.js:14 | `prefix + "." + D` matches `D` for every prefix, the empty one included |
| `Domains.SubdomainAllowed` | script.js:13-14 | every `prefix.D` host is allowed when `D` is listed: subdomains of any depth pass |
| `Domains.MatchIsLabelAligned` | script.js:14 | a host that matches `D` is `D` itself or is some prefix, a dot and `D` |
| `Domains.AllowedIsDomainOrSubdomain` | script.js:13-15 | soundness: an allowed host is a listed domain, or a prefix, a dot and a listed domain |
| `Domains.UndottedPrefixDoesNotMatch` | script.js:14 | a host ending in `D` with a non-dot character right before it does not match `D` |
| `Domains.AllowedIsMonotone` | script.js:13 | a host allowed by a list stays allowed by any list that contains every entry of it |
| `Domains.AllowListAcceptsScenarios` | script.js:5-15 | the script's list accepts its three domains and `a.b.healthhub.sg` |
| `Domains.AllowListRejectsUndottedLookAlikes` | script.js:5-15 | the script's list refuses `evilhealthhub.sg` and `nothealthhub.sg` |
| `Domains.AllowListRejectsPrefixLookAlike` | script.js:5-15 | the script's list refuses `healthhub.sg.attacker.net` |
| `Domains.SubdomainMatchIsZoneMatch` | script.js:14 | a host matching a subdomain of a zone also matches the zone |
| `Domains.ListedSubdomainsInZone` | script.js:5-9 | the second and third listed domains end with a dot and the first one |
| `Domains.AllowedHostIsInZone` | script.js:5-15 | every host the script's list allows is `healthhub.sg` or a subdomain of it |
| `Domains.AllowListIsOneZone` | script.js:5-15 | the script's list allows a host exactly when it is `healthhub.sg` or a subdomain of it: the two longer entries add nothing |
| `Guard.Container.Reset` | script.js:25 | the stand-in's `reset` leaves the stand-in as it is |
| `Guard.Container.Push` | script.js:26 | the stand-in's `push` returns 0 for any arguments |
| `Guard.DisableAll` | script.js:20-31 | the disabled registry has the same container ids, each bound to the stand-in |
| `Guard.Block` | script.js:17-44 | refused branch: registry present iff before, same ids, all stand-ins; queue empty with push replaced; one error logged; one report naming the host iff a beacon is available |
| `Guard.GuardSpec` | script.js:13-47 | an allowed host changes nothing but the log (one info entry); a refused host gives `Block` |
| `Guard.AllowedPageUntouched` | script.js:45-47 | on an allowed host the registry, queue, push and reports are exactly as before; only one info entry is logged |
| `Guard.PushSpec` | script.js:33-37 | a replaced push returns 0 and changes nothing but the log (one warning); the array's own push appends, changes nothing else and returns the new length |
| `Guard.PushAll` | script.js:33-37 | a series of push calls yields one return value per call |
| `Guard.DisabledPushesAreInert` | script.js:33-37 | once push is replaced, any series of calls returns 0 each time and changes nothing but the log, which keeps its old entries and gains one warning per call |
| `Guard.RefusedPageStaysDisabled` | script.js:17-44 | after a refusal and any later pushes: the queue is empty, every push returned 0, the registry keeps its ids and holds only stand-ins, and the report list gained the host iff a beacon was available |
| `Guard.Window.Guard` | script.js:11-47 | the page state after the script equals `GuardSpec` of the state before; the loop disables one registry entry at a time |
| `Guard.Window.Push` | script.js:34-37 | the page state and the return value equal `PushSpec` of the state before |

## Left out

- Reading `window.location.hostname`: the host is a parameter of `Window.Guard`. No case folding or normalisation is applied, because the script applies none.
- Console output: only the level and the host are kept, not the message text or the icons.
- The beacon's endpoint URL, its JSON encoding and the ISO-8601 timestamp (a clock and a foreign serializer). A sent beacon is recorded only as the host it names. A beacon that fails to deliver is not modelled, because the script never looks at the outcome.
- JavaScript's prototype chain: the map holds the registry's own enumerable string-keyed entries, so the `hasOwnProperty` filter is implicit, and non-enumerable or symbol-keyed own properties, which `for...in` skips, are not represented. A write that strict mode refuses (a frozen registry, a read-only entry) would throw and abort the rest of the refused branch, including the queue replacement and the beacon; that is not modelled, and `Guard.Block` and `Window.Guard` always complete the branch. The order in which `for...in` visits the ids is not modelled either: the loop picks any pending id, and the result does not depend on the order.
- Aliasing: code that kept a reference to the old `window.dataLayer` array still sees that array. The model keeps one queue value.
- Installed containers are opaque handles. Their own `push` belongs to the tag-manager library, so `Guard.Container.Reset` and `Guard.Container.Push` are defined only for the stand-in.
- Before the guard replaces it, `dataLayer.push` is modelled as the array's own push. The tag-manager library normally overrides it, and that override is outside this model.
- A page without `window.dataLayer`: the queue is always a sequence, so the model cannot tell an absent queue from an empty one. The script creates the queue in either case.
- Concurrent access to the globals by the rest of the page, and the `<script>` wrapper and immediately-invoked function boilerplate.
- Guard.PushAll: its contract only says that each call yields one return value. What the values are is stated by `Guard.DisabledPushesAreInert`.
