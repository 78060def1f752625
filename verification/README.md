# TONpayment: a Dafny model of the payment core

TONpayment issues invoices payable in TON, watches the chain for the payment and notifies
a webhook when it lands. This project models that path, from an address string to a
credited payment, and proves what the service is trusted for: that nobody is credited
twice or for money that never arrived, that a paid invoice is announced once, that the
store survives a crash, that a mistyped address is caught, and that the request limiter
keeps its promise whatever it forgets.

Run `dafny verify dfyconfig.toml` in this directory.

## How it is organised

Addresses

- `Bits`, `Gf2`: bit strings; polynomials over GF(2) and division by x^16 + x^12 + x^5 + 1.
- `Crc16`, `CrcPeriod`, `CrcDetection`: the checksum loop, its meaning as a remainder, and
  the errors it must detect. `CrcPeriod` shows that x^d is not 1 modulo the generator for
  any d below 288, from a table of x^16, x^32, ..., x^288.
- `GoText`, `Base64`: the Go text conversions the code calls, with their quirks: a sign and
  leading zeros in ParseInt, line breaks skipped by the base64 decoder, padding and trailing
  bits as the decoder treats them.
- `TonAddr`: parsing, printing and normalising addresses. `Money`: printing amounts.

Settlement

- `Store`: invoices and the operations of the Memory store, as functions on its two maps and
  its snapshot file. `Memory`: the same operations updating a class in place, each proved
  equal to its function. `Recovery`: restarts.
- `Verifier`: the matching loop, and what a match says about the chain.
- `Protocol`: CheckStatus and CreateInvoice as steps of any number of threads in any number
  of processes. A thread reads, verifies without a lock, takes the mutex of the lock map and
  then that of its invoice, reads again, claims, and notifies; the expiry path takes no
  lock. Processes share the store and nothing else. Every store call can fail, any process
  can crash at any point, responses are arbitrary windows of a growing chain, and clock
  readings are arbitrary, except that no deadline is judged by a reading from before the
  check began.
- `Settlement`, `Preservation`: the invariant, and that each step keeps it.
- `Guarantees`, `Deadlines`, `Replies`, `Progress`, `Caps`: what holds over all runs. `Restart`: the store's own
  restart, in the middle of any run. These theorems are about creations for any address,
  also those the service never stores.
- `Reach`: the states that callers reach who keep to given addresses. `Overshoot`: runs that
  reach the bound of `Caps`, with addresses from `FreshAddress`. `Accounts`: money per
  account, and the runs that lose it. Every address in these runs is one that the service
  accepts and stores (`Outcomes.Accepts`).
- `Outcomes`, `Locks`, `Service`: the code as one caller sees it. `Outcomes` says what a call
  does; `Service` is the code itself, updating the store, the lock map and the webhook in
  place, proved equal to `Outcomes`; `Solo` proves that the protocol's steps, run without
  interruption, do the same. So the concurrent model and the sequential code are tied
  together.
- `Poller`: one tick of the poller beside everything else.

Rate limiter

- `TokenBucket`: the limiter as functions, with and without eviction, and its theorems.
  `RateLimiter`: the map of buckets updated in place.

`Sums` has totals over maps, sizes of sets, and fresh values.

## What the code does not do

Some claims in comments are broader than the code, and here the model follows the code.

- A verifier error does not leave every invoice pending: an overdue one is expired
  (internal/service/service.go:197 against 223-226). `Outcomes.CheckMeans` has the exact rule.
- A failed insert does not always leave memory and disk in agreement: it deletes whatever
  had the same id (internal/store/memory.go:99). `Store.RollbackExact` says exactly when it
  does. A successful insert over an existing id leaves a stale entry in the index. So
  recovery holds if and only if no insert overwrites an invoice (`Recovery.CrashRecovery`);
  `Recovery.ReusedIdForgotten` shows a loss.
- Uniqueness is per stored spelling of an address and not per account
  (internal/store/memory.go:26 against internal/wallet/ton.go:113). Two invoices that hold the
  same memo under two stored spellings of one account can be paid by one transaction, and the
  account is then credited with more than it received: `Accounts.EveryAddressOverCredited`
  reaches such a state for every supported address, on a service of its network, with any
  caps and any positive int64 amounts. It takes a repeated memo, which the service draws from
  128 random bits; nothing but chance prevents one across spellings. Conservation per account
  holds while no memo is drawn that another spelling of its account has used
  (`Accounts.UnsharedConserved`), and for callers who ask for the account by given inputs
  exactly when the service stores all of these alike (`Accounts.ConservedIffStoredAlike`). The
  raw and the bounceable friendly form, for one, are stored alike on mainnet and apart on a
  testnet (`Outcomes.RawAndFriendly`). Per PayTo string conservation always holds
  (`Guarantees.Conservation`).
- Normalising on a testnet is not idempotent for raw addresses (`TonAddr.NetworkIdempotent`).
- The pending caps are not exact under concurrency: with at most n creators at a time they
  can be exceeded by n - 1 (`Caps.CapBound`), and for every cap, scope and n some run
  of accepted addresses does (`Overshoot.CapReached`), so they hold exactly for n = 1 (`Overshoot.CapExact`).
- Eviction is unobservable exactly for a burst of at least one
  (`TokenBucket.EvictionUnobservable`); the service uses 40.
- The least int64 prints as a string that is not a number (`Money.LeastAmount`).

## Model

| member | source | states |
|---|---|---|
| Crc16.ComputeCrc16 | internal/tonaddr/tonaddr.go:185-198 | The nested loops compute the remainder of M(x) * x^16 modulo the generator, for every byte string |
| Crc16.ShiftForm | internal/tonaddr/tonaddr.go:190-194 | A round is a shift left followed by the conditional xor with the taps of 0x1021 |
| Crc16.ChecksumIsRemainder | internal/tonaddr/tonaddr.go:185-198 | A 16-bit string is the checksum of a message if and only if it is the remainder of dividing M(x) * x^16 |
| Gf2.RemainderUnique | internal/tonaddr/tonaddr.go:183-184 | Division by the generator has one remainder, so the reference definition determines the checksum |
| Crc16.RegisterLinear | internal/tonaddr/tonaddr.go:185-198 | The register is XOR-linear in its start and its message, for messages of equal length |
| Crc16.ChecksumTest | internal/tonaddr/tonaddr.go:145-148 | Stored and computed checksum agree if and only if the checksum of body and trailer together is zero |
| Crc16.OneByte | internal/tonaddr/tonaddr.go:183-198 | The checksum of the byte 1 is 0x1021 |
| CrcPeriod.NoShortPeriod | internal/tonaddr/tonaddr.go:183-198 | No power x^d with 0 < d < 288 is 1 modulo the generator |
| CrcDetection.BurstShows | internal/tonaddr/tonaddr.go:185-198 | Any nonzero error within sixteen adjacent bits changes the checksum |
| CrcDetection.PairShows | internal/tonaddr/tonaddr.go:185-198 | Any two flipped bits of a 288-bit payload change the checksum |
| CrcDetection.Undetected | internal/tonaddr/tonaddr.go:185-198 | An undetected error in at most 288 bits has even weight, at least four bits, and spans more than sixteen |
| GoText.IntRoundTrip | internal/tonaddr/tonaddr.go:98-180 | Parsing a printed integer gives it back exactly when it fits the width |
| GoText.ParseIntIff | internal/wallet/ton.go:117-120 | A text parses to an integer if and only if it shows it, as digits with an optional sign and any leading zeros, and it fits the width |
| GoText.DecimalConcat | internal/wallet/ton.go:117-120 | Decimal digits count by their place, and one digit (`DecimalDigit`) by its place among 0 to 9 |
| GoText.HexRoundTrip | internal/tonaddr/tonaddr.go:108-180 | Decoding printed hexadecimal gives the bytes back |
| GoText.HexDecodeMeans | internal/tonaddr/tonaddr.go:108-111 | Hexadecimal decodes if and only if it has an even number of digits of either case, to the bytes of which each pair shows the high and the low half |
| GoText.HexCase | internal/tonaddr/tonaddr.go:108-111 | Upper and lower case decode alike |
| GoText.TrimMeans | internal/tonaddr/tonaddr.go:46 | Trimming removes all Unicode white space at both ends and nothing else |
| Base64.RoundTrip | internal/tonaddr/tonaddr.go:118-172 | Decoding an encoded byte string gives it back in either alphabet |
| Base64.EncodeOnly | internal/tonaddr/tonaddr.go:172 | The encoder's text is the one that spells the bytes by the tables and bit places of RFC 4648 |
| Base64.DecodeIff | internal/tonaddr/tonaddr.go:118-123 | A text without line breaks decodes to given whole groups if and only if it is their encoding |
| Base64.DecodeCharTable | internal/tonaddr/tonaddr.go:118-123 | A character decodes exactly to its place in the table of its alphabet |
| Base64.LineBreak | internal/tonaddr/tonaddr.go:118-123 | A line break makes no difference wherever it stands |
| Base64.NoLineBreak | internal/tonaddr/tonaddr.go:118-123 | No other character is skipped |
| Base64.AlphabetsAgree | internal/tonaddr/tonaddr.go:118-123 | A string both alphabets decode means the same bytes in both |
| Base64.WholeBits | internal/tonaddr/tonaddr.go:118-126 | Unpadded text decodes to exactly the six bits of each character, so a character error is a six-bit burst |
| TonAddr.PrintFriendly | internal/tonaddr/tonaddr.go:155-173 | Filling the buffer and encoding it url-safe gives the friendly form, whose every byte and character `FriendlyMeans` and `FriendlyShape` state |
| TonAddr.FillBody | internal/tonaddr/tonaddr.go:155-168 | The buffer holds tag, workchain byte and hash in the first 34 places |
| TonAddr.FriendlyMeans | internal/tonaddr/tonaddr.go:155-173 | What is printed spells, in the url-safe table, the tag 0x11 or 0x51 with the testnet bit, the workchain byte, the hash, and two bytes that make the checksum of all zero |
| TonAddr.FriendlyShape | internal/tonaddr/tonaddr.go:155-176 | A friendly form is 48 letters, digits, hyphens and underscores, and begins with EQ, UQ, kQ or 0Q on the basechain and Ef, Uf, kf or 0f on the masterchain, by flag and network |
| TonAddr.RawMeans | internal/tonaddr/tonaddr.go:179-181 | The raw form is 0 or -1, a colon and the hash in 64 lower-case hexadecimal digits |
| TonAddr.FriendlyIff | internal/tonaddr/tonaddr.go:45-151 | An input without a colon parses to an address if and only if, trimmed and without line breaks, it spells that address's bytes in one of the alphabets |
| TonAddr.RawIff | internal/tonaddr/tonaddr.go:97-115 | An input with a colon parses to an address if and only if, trimmed, it shows its workchain, 0 or -1, and its hash in 64 digits of either case, and the address is bounceable and on mainnet |
| TonAddr.FriendlyRoundTrip | internal/tonaddr/tonaddr.go:117-173 | The friendly form parses in both alphabets, to the address printed if and only if the workchain is 0 or -1 |
| TonAddr.FallbackOrder | internal/tonaddr/tonaddr.go:118-123 | The order in which the two alphabets are tried never changes the result |
| TonAddr.ParseToString | internal/tonaddr/tonaddr.go:176 | Printing keeps workchain, hash and both flags |
| TonAddr.NormalizeIdempotent | internal/tonaddr/tonaddr.go:62-72 | Normalising twice is normalising once, and the normal form names the same address |
| TonAddr.NormalizeEqual | internal/tonaddr/tonaddr.go:66-72 | Two inputs normalise to one string if and only if workchain, hash and both flags agree |
| TonAddr.NormalForm | internal/tonaddr/tonaddr.go:66-72 | The normal form of an input is the one text of 48 url-safe characters that parses to the same address |
| TonAddr.NormalizePlain | internal/tonaddr/tonaddr.go:66-72 | A normal form has 48 characters, no NUL and no colon |
| TonAddr.NetworkChecked | internal/tonaddr/tonaddr.go:84-87 | An accepted friendly address is on the network asked for |
| TonAddr.NetworkIdempotent | internal/tonaddr/tonaddr.go:79-88 | Normalising on a network is idempotent if and only if the input is not raw or the network is mainnet |
| TonAddr.RawRoundTrip | internal/tonaddr/tonaddr.go:97-115 | The raw form parses to workchain and hash with default flags, exactly for the supported workchains |
| TonAddr.SameAccount | internal/tonaddr/tonaddr.go:179-181 | Raw forms agree if and only if workchain and hash do |
| TonAddr.PayloadsFarApart | internal/tonaddr/tonaddr.go:117-151 | Two distinct accepted payloads differ in an even number of bits, at least four, across more than sixteen |
| TonAddr.NeighboursCorrupted | internal/tonaddr/tonaddr.go:117-151 | Changing two adjacent characters of an accepted address is rejected or harmless |
| TonAddr.SubstitutionDetected | internal/tonaddr/tonaddr.go:117-151 | Changing any one character of a 48-character address is rejected or gives the same address |
| TonAddr.TranspositionDetected | internal/tonaddr/tonaddr.go:117-151 | Swapping any two adjacent characters is rejected or gives the same address |
| Money.Printed | internal/money/money.go:21-40 | Trimming keeps the whole part and drops only trailing zeros of the fraction |
| Money.PrintedTail | internal/money/money.go:21-40 | The output has a minus sign exactly for negative amounts, no leading zero before another digit, and never ends in a dot or a fractional zero |
| Money.AmountRoundTrip | internal/money/money.go:12-40 | Reading the output by decimal places, whole and fraction as one number of digits filled up to nine places, gives the amount back, for every int64 if and only if it is not the least |
| Money.LeastAmount | internal/money/money.go:22-38 | The least int64 prints as --9223372036.-854775808 |
| TokenBucket.TakeLevels | internal/httpx/middleware.go:121-135 | A call is admitted exactly when its key's level is at least one, takes one token, and touches no other key |
| TokenBucket.SweepKeepsLevels | internal/httpx/middleware.go:141-151 | A sweep changes nobody's level |
| TokenBucket.SweepMeans | internal/httpx/middleware.go:141-151 | Within a minute of the last sweep nothing is dropped, and later exactly the buckets whose level is the burst |
| TokenBucket.EvictionUnobservable | internal/httpx/middleware.go:138-151 | Over every monotone run the answers with and without eviction agree, if and only if the burst is at least one |
| TokenBucket.KeysIndependent | internal/httpx/middleware.go:116-136 | A key's answers and level are those it would get alone |
| TokenBucket.LeastRoom | internal/httpx/middleware.go:116-136 | A key's level is the least room that burst plus refill leaves over all windows ending now |
| TokenBucket.AdmittedIffRoom | internal/httpx/middleware.go:116-136 | A call is admitted if and only if admitting it breaks the bound in no window ending with it |
| TokenBucket.WindowBound | internal/httpx/middleware.go:116-136 | Every window [s, t] of every run admits at most burst + rate * (t - s) requests of a key |
| TokenBucket.MemoryBound | internal/httpx/middleware.go:138-151 | After every call each remembered bucket holds 0 to burst tokens and was used less than 60 + burst/rate seconds ago |
| RateLimiter.KeyedBuckets.constructor | internal/httpx/middleware.go:112-114 | A new limiter has no buckets and the given rates |
| RateLimiter.KeyedBuckets.Allow | internal/httpx/middleware.go:116-136 | The in-place limiter answers and changes as the functional one, and no two keys share a bucket |
| RateLimiter.KeyedBuckets.Expel | internal/httpx/middleware.go:141-151 | The deleting loop, in any order, leaves exactly the buckets that are not full |
| RateLimiter.Bucket.Use | internal/httpx/middleware.go:126-135 | Refill, cap and spend one bucket in place |
| Store.MemoKeyInjective | internal/store/memory.go:24-26 | For addresses without NUL the key determines address and memo |
| Store.AlwaysIndexed | internal/store/memory.go:89-187 | After any operation every invoice is indexed and no two share a key, fresh ids or not |
| Store.IndexUnique | internal/store/memory.go:63-66 | A list of invoices has only one exact index, so the order of rebuilding is not seen |
| Store.RollbackExact | internal/store/memory.go:96-102 | A failed insert restores the store if and only if the id was fresh or the memo was taken |
| Store.MoveRollback | internal/store/memory.go:149-186 | A failed claim or expiry always restores the store |
| Recovery.CrashRecovery | internal/store/memory.go:48-187 | At every moment of a history of operations, failed writes and restarts, store, disk and index are those of the acknowledged operations, plus possibly the one in flight, if and only if no insert in it overwrites an invoice |
| Recovery.ReusedIdForgotten | internal/store/memory.go:96-102 | With a reused id and a failing disk, memory loses an invoice that the disk keeps |
| Restart.RestartSame | internal/store/memory.go:48-104 | At every moment of every run of the protocol a store with a directory is, after a restart, exactly the store that was there |
| Memory.Memory.constructor | internal/store/memory.go:36-44 | A store starts from its snapshot, exactly indexed, or empty without a directory |
| Memory.Memory.Load | internal/store/memory.go:48-68 | The rebuilding loop, in any order, indexes every invoice and nothing else |
| Memory.Memory.PersistAll | internal/store/memory.go:71-87 | A write replaces the snapshot at once or leaves it |
| Memory.Memory.CreateInvoice | internal/store/memory.go:89-104 | Insert, write and roll back, in place: the new maps, file and outcome are those of the specification |
| Memory.Memory.GetInvoice | internal/store/memory.go:106-111 | The invoice stored under the id, if any |
| Memory.Memory.ClaimInvoiceForSettlement | internal/store/memory.go:137-154 | Claim, write and roll back, in place: the new maps, file and outcome are those of the specification |
| Memory.Memory.ExpireInvoice | internal/store/memory.go:172-187 | Expire, write and roll back, in place: the new maps, file and outcome are those of the specification |
| Memory.Memory.PendingCounts | internal/store/memory.go:156-170 | The loop counts the pending invoices in total and for the address |
| Verifier.Verify | internal/wallet/ton.go:56-126 | The early-exit loop gives the verdict that `JudgeMeans` states |
| Verifier.JudgeMeans | internal/wallet/ton.go:56-126 | The verdict is an error if and only if address or memo is empty or the request failed; otherwise it credits a hash if and only if the first entry has it that shows the exact memo, a 64-bit value of at least the amount, no destination or the account paid to, and no time or one not over before an hour before the invoice; and it is unpaid if and only if no entry does |
| Verifier.FirstMatch | internal/wallet/ton.go:96-125 | No entry exactly when none pays; otherwise the first that does |
| Verifier.CreditedHasWitness | internal/wallet/ton.go:96-125 | Shown only true entries, the verifier credits on one of them, with its hash, that pays the invoice |
| Verifier.WitnessPays | internal/wallet/ton.go:98-124 | Its transaction carries the exact memo and at least the amount, reached the invoice's account if that parses, and if the entry gives a time is not older than the invoice by more than an hour |
| Verifier.SpellingsKeptApart | internal/wallet/ton.go:94-116 | The two spellings of an account are matched alike by the verifier and kept apart by the store |
| Settlement.ThreadOkStays | internal/service/service.go:207-227 | What a thread has read or concluded stays good enough whatever other threads do |
| Preservation.LocalOk | internal/service/service.go:198-268 | Reading, verifying, re-reading and timing lead only to what the thread may conclude |
| Preservation.LockKeeps | internal/service/service.go:87-100 | Taking and releasing the locks keeps holders and waiters consistent |
| Preservation.ClaimWon | internal/service/service.go:233-252 | The winner of a claim is the one thread that will notify |
| Preservation.ExpireWon | internal/service/service.go:255-268 | An expiry records a verdict that did not credit and a clock past the deadline |
| Preservation.InsertKeeps | internal/service/service.go:154-170 | An insert, refused, failed or done, keeps the invariant |
| Preservation.CrashOnce | internal/service/service.go:233-252 | A crash loses the winner and its notification together and nothing else |
| Preservation.StepKeeps | internal/service/service.go:82-268 | Every step of every thread and every move of the environment keeps the invariant |
| Guarantees.Lifecycle | internal/service/service.go:198-268 | Between any two moments of a run an invoice is unchanged or has gone once from pending to paid or expired with its terms kept |
| Guarantees.TerminalForever | internal/store/memory.go:137-187 | A paid or expired invoice never changes in any field again |
| Guarantees.Soundness | internal/wallet/ton.go:96-125 | Every paid invoice was credited on a recorded entry with its txHash that qualifies, and whose transaction has the memo, the amount, the account and the time; every expired one has a deadline, and recorded a request that failed or showed no qualifying entry, and a clock past the deadline |
| Guarantees.RepliesAreStored | internal/service/service.go:198-268 | A terminal invoice that a check returns is the stored one; an error comes only with a pending copy |
| Guarantees.OverdueEnds | internal/service/service.go:207-227 | A check that answers leaves no invoice pending whose deadline had passed when the check began |
| Guarantees.CreditedSettles | internal/service/service.go:207-221 | A check whose verdict credits, and that answers without an error, leaves its invoice no longer pending, over every run in which its process does not crash meanwhile |
| Replies.CreditedAnswer | internal/service/service.go:207-252 | A check whose verdict credits, and whose lookups work from then on, answers with the stored invoice, paid or expired, or with an error |
| Replies.OverdueAnswer | internal/service/service.go:198-268 | A check whose lookups work answers with a paid or expired invoice, or an error, if the deadline had passed when it began |
| Deadlines.ClockDecides | internal/service/service.go:223-227 | An uncredited check whose clock has not passed the deadline, or of an invoice without one, returns the pending invoice and changes nothing; past the deadline it goes on to expire it |
| Deadlines.ExpiredOnlyLate | internal/service/service.go:223-227 | Over every run, an invoice expires only if it has a deadline and a check of it, not credited, has read a clock past the deadline |
| Deadlines.FullTime | internal/service/service.go:140-155 | Over every run, an invoice created at c for a ttl within the limit is expired by no check whose clock is at most c + ttl |
| Guarantees.ExactlyOnce | internal/service/service.go:233-252 | Notifications sent, due and lost add up to one for a paid invoice and to none otherwise; none is ever sent twice, crashes included |
| Guarantees.NotifiedIffPaid | internal/service/service.go:247-250 | Without crashes, once all calls have returned, each paid invoice was sent exactly once, as stored, and no other |
| Guarantees.NoDoubleCredit | internal/store/memory.go:92-95 | Two paid invoices of one address never share a transaction |
| Guarantees.Conservation | internal/wallet/ton.go:96-124 | The amounts paid under an address string never exceed what the chain brought to its account |
| Accounts.ApartConserved | internal/wallet/ton.go:94-124 | If no two paid invoices of an account share a memo, the account is credited with no more than it received, whatever the spellings |
| Accounts.InsertApart | internal/store/memory.go:92-97 | An insert keeps the memos of an account apart if and only if its memo is unused under every spelling of it |
| Accounts.UnsharedConserved | internal/store/memory.go:24-26 | Over every run in which no drawn memo was used under a spelling of its account, the account is never credited with more than it received |
| Accounts.DoubleCredit | internal/wallet/ton.go:94-124 | From any reachable state, two pending invoices of one account with one memo can both be paid by one transaction worth the larger |
| Accounts.EveryAddressOverCredited | internal/service/service.go:112-119 | Every supported address has two spellings that the service of its network stores as they stand, and with these, any caps and any two positive int64 amounts, some run credits the account with more than it received |
| Accounts.ConservedIffStoredAlike | internal/service/service.go:112-119 | Conservation per account holds in every run of callers who ask for the account by given inputs if and only if the service, having normalised them, stores all of these alike |
| Guarantees.Exclusion | internal/service/service.go:82-100 | In one process no two threads are in the same critical section or both in the lock map, and none waits for a key inside the map |
| Progress.DeadlockFree | internal/service/service.go:87-100 | In every reachable state an unfinished thread can step, or the thread of its process whose lock it waits for can |
| Progress.Terminates | internal/service/service.go:198-268 | All calls begun take at most ten steps each, however they are scheduled |
| Caps.CountDecides | internal/service/service.go:126-139 | A creator passes the cap check if no cap is set, and otherwise exactly when the count succeeds and each cap that is set has room |
| Caps.CapBound | internal/service/service.go:126-163 | With at most n creators at a time, pending invoices and creators past the check never exceed cap - 1 + n, in total and per address, where an address is under the total cap too |
| Overshoot.CapReached | internal/service/service.go:126-163 | For every positive cap of a Go integer, every scope and every number n of creators some run, for addresses the service accepts, ends with cap - 1 + n invoices pending |
| Overshoot.CapExact | internal/service/service.go:126-163 | A cap holds in every run with at most n creators at a time, for addresses the service accepts, if and only if n is one |
| Outcomes.CheckMeans | internal/service/service.go:194-268 | The whole of a check: nothing for a missing or terminal invoice; a pending one is paid on the first qualifying entry exactly when there is one, else expired exactly when it has a deadline and the clock is past it, and only if the write works; store, disk, notifications and reply in each case |
| Outcomes.CheckTwice | internal/service/service.go:203-205 | Checking a settled or expired invoice again changes and sends nothing |
| Outcomes.InsertMeans | internal/service/service.go:154-170 | The first draw with a free memo is stored, or rolled back if its write fails; with none free the store is left as it was |
| Outcomes.CreateNewMeans | internal/service/service.go:105-172 | A created invoice is stored, expires after its creation and within the limit, and keeps both caps when nothing else runs |
| Outcomes.CreatedIff | internal/service/service.go:105-172 | A creation returns a given invoice if and only if the amount is positive, the metadata small, both caps have room, the first draw with a free memo is written, and every field is the one asked for: for an empty payTo the configured default, for another one that parses, and is raw or on our network, its url-safe spelling |
| Outcomes.RequestErrors | internal/service/service.go:106-122 | The amount, a bad or wrong-network address and a missing default are reported exactly when they are wrong, in this order |
| Outcomes.LimitErrors | internal/service/service.go:123-139 | Metadata over 64 keys or 8192 bytes, the total cap and the cap of the address are reported exactly when exceeded, in this order |
| Outcomes.RejectedUnchanged | internal/service/service.go:105-172 | A rejected creation leaves the store as it was |
| Outcomes.TakenIff | internal/store/memory.go:24-95 | With an exact index, a memo is taken exactly when an invoice of the same address has it |
| Outcomes.BytesConcat | internal/service/service.go:181-184 | Strings are measured character by character |
| Outcomes.BytesOne | internal/service/service.go:181-184 | A character takes one to four bytes, by the ranges of UTF-8 |
| Outcomes.ReceiverMeans | internal/service/service.go:112-119 | A caller's address is stored canonically, names the same account, and is on our network |
| Outcomes.FriendlyStored | internal/service/service.go:112-119 | A friendly form of a supported address is stored as it stands on its own network |
| Outcomes.RawStored | internal/tonaddr/tonaddr.go:79-115 | A raw form is stored as the bounceable mainnet spelling, on either network |
| Outcomes.RawAndFriendly | internal/tonaddr/tonaddr.go:79-115 | Raw and bounceable friendly form of an account are stored alike if and only if the service is on mainnet |
| Locks.KeyedLocks.Lock | internal/service/service.go:87-100 | A key keeps its mutex once it has one, and only that key becomes held |
| Locks.KeyedLocks.Unlock | internal/service/service.go:99 | Only that key is released |
| Service.Service.Settle | internal/service/service.go:233-252 | Claim, then notify if won: new store, notifications and reply are those of the specification |
| Service.Service.SettleIfPending | internal/service/service.go:213-220 | Re-reads the invoice before settling, and settles it only if it is still pending |
| Service.Service.SettleLocked | internal/service/service.go:211-220 | Re-reads and settles under the invoice's lock, whatever has become of the invoice, and leaves the locks as they were |
| Service.Service.ExpireOverdue | internal/service/service.go:255-268 | Expires in place as specified |
| Service.Service.CheckStatus | internal/service/service.go:198-228 | The whole check in place does what `Outcomes.CheckMeans` states, and the locks held afterwards are those held before |
| Service.Service.CreateInvoice | internal/service/service.go:105-172 | Guards, default address, metadata limits, caps, clamp and five attempts in place do what `Outcomes.CreatedIff`, `RequestErrors` and `LimitErrors` state |
| Service.Service.Allocate | internal/service/service.go:154-170 | The loop that redraws id and memo stores what the specification does |
| Service.ValidateMetadata | internal/service/service.go:177-189 | The loop, in any order, accepts exactly metadata of at most 64 keys and 8192 bytes of UTF-8 |
| Solo.SoloCheck | internal/service/service.go:198-268 | The protocol's steps, run alone, are possible and do exactly what the sequential check does |
| Solo.SoloCreate | internal/service/service.go:126-170 | The protocol's creation, run alone, is the cap check followed by the retry loop |
| Poller.TickInv | internal/poller/poller.go:50-74 | Slots and the wait group count the workers, and each worker's thread makes that worker's call, whatever else runs |
| Poller.BoundedAndDrained | internal/poller/poller.go:55-73 | At most `concurrency` checks run at once, and none remains when the tick returns, cancelled or not |
| Poller.EachCheckedOnce | internal/poller/poller.go:57-73 | An uncancelled tick calls CheckStatus exactly once for each invoice of its snapshot, and every call has returned |
| Poller.OverdueCleared | internal/poller/poller.go:50-74 | If no call met an error, every snapshot invoice whose deadline had passed at the start is paid or expired at the end |
| Poller.TickNeverStuck | internal/poller/poller.go:57-73 | Until it has returned the tick can move or is waiting for a running check |
| Poller.TickEnds | internal/poller/poller.go:50-74 | A tick takes at most six steps of its own for each invoice of its snapshot, and two more |

## Left out

- HTTP routing, CORS, logging, JSON coding, QR codes, configuration, API keys, the mock verifier and webhook delivery: plumbing over libraries; sending a notification is one event.
- The toncenter request: a decoded list of entries, or none, is an input. Entries are assumed to report transactions of the chain, and a hash to identify one.
- TONToNano: rounding of floating point.
- ListInvoices, and the order of ListPending: `Poller.IsSnapshot` takes the pending invoices in any order.
- The Postgres driver: only its atomic claim, expire and insert are used, as steps that work or fail without effect. Timestamp precision and an error after a commit are outside the model.
- Strings are sequences of characters; Go's are bytes. The two differ only on input that is not valid UTF-8.
- Addresses as the checksum sees them: a uint16 register is a string of sixteen bits, leading bit first.
- Recovery.CrashRecovery: a snapshot write is atomic and durable or has no effect.
- Guarantees.Conservation: is per PayTo string; per account it needs the conditions of Accounts.
- Guarantees.CreditedSettles: a crash of the process may end the check before its claim.
- Guarantees.OverdueEnds: assumes that the clock does not run backward during a check.
- Locks.KeyedLocks.Lock: requires that nobody holds the key, where the source waits until nobody does; waiting is a state of the protocol's threads (Progress.DeadlockFree).
- TokenBucket.WindowBound: tokens and seconds are reals, and calls come with monotone times; rounding and the saturation of very long durations are not modelled.
- Service.Service.CheckStatus: is one call at a time and requires that nobody holds the lock of its invoice, where the source waits; interleaving is the subject of the protocol modules.
- Service.Service.SettleLocked: requires the same, for the same reason.
- Protocol: ids are fresh when drawn; nothing is assumed of memos. The store outlives the processes; Restart shows that restarting it changes nothing.
- Overshoot.CapReached: caps of 2^63 and more, which the code's integers cannot hold.
- Outcomes.Receiver: the default address is taken as it is configured; normalising it at startup is not modelled.
- Poller: ticks of one poller do not overlap, and the process running it does not crash during a tick.
