# Raffles and campaigns: a Dafny model

This project models the core of a raffle ("rifa") and campaign ("campanha")
web application. Organisers create raffles with numbered tickets, and
campaigns that sell anonymous ticket quantities. Buyers reserve raffle
numbers and pay by PIX, or pay by card through a hosted checkout. A payment
webhook records paid tickets. Organisers confirm or reject pending PIX
payments. A subscription webhook moves users between the three plans, and
each plan caps how many raffles and campaigns a user may create.

The model works on an in-memory database (`Schema.Db`):
- every raffle record holds its ticket table, a map from ticket number to
  row;
- campaigns sit in a map by id;
- campaign purchases sit in a sequence.

Each page handler or serverless function becomes a pure function from the
database, plus explicit fault flags for the remote calls whose failure the
code handles, to a new database and an outcome. The failures that are not
modelled are listed under "Left out". Money is integer cents. JavaScript's
`parseInt`, integer `toString`, `Math.round` of a quotient, `||` fallbacks
and UTF-16 string length are modelled explicitly where the code relies on
them.

Modules, following the program's structure:
- `Common`, `Schema`: shared types, the database enums and their name
  lists, the table rows.
- `JsNumbers`: JavaScript number parsing and printing.
- `RaffleTickets`: ticket-table operations.
  - creation's ticket generation;
  - the PIX reservation, as written and corrected;
  - the webhook's number allocator;
  - confirm and delete.
- `Plans`, `Subscription`: plan limits, the plan gate, the subscription
  webhook.
- `Checkout`, `PaymentWebhook`: card checkout creation and the
  payment-completed webhook.
- `CreateRaffle`, `CreateCampaign`, `Prizes`: the creation pages and the
  prize-list editors.
- `ConfirmPayments`: the organiser's pending-payment screen.
- `Grid`, `Forms`: the number grid, the sign-up, search and buy validators.
- `StableSort`, `CampaignDetails`, `SellerStats`, `TicketLookup`: the
  buyer ranking, the organiser's raffle card, the buyer's ticket lookup.
- `Interactions`: lemmas that follow one ticket table through several of
  the operations above.

## Model

| member | source | states |
|---|---|---|
| Schema.TicketStatusConstants | src/integrations/supabase/types.ts:388-395 | The ticket status name list has no duplicates, lists every status once, and agrees with the enum's names in order. |
| Schema.PledgeStatusConstants | src/integrations/supabase/types.ts:388-395 | The same for the campaign purchase statuses aguardando, pago and cancelado. |
| Schema.RaffleStatusConstants | src/integrations/supabase/types.ts:388-395 | The same for the raffle statuses. |
| Schema.PlanConstants | src/integrations/supabase/types.ts:388-395 | The same for the three plans, economico, padrao and premium. |
| Schema.OtherConstants | src/integrations/supabase/types.ts:388-395 | The same for campaign modes, payment statuses and payment kinds, and pix is the payment method. |
| Schema.ParsePlan | src/integrations/supabase/types.ts:265-272 | A string is read as a plan exactly when it is one of the plan names, and the plan read back prints as that string. |
| Schema.ParseTicketStatus | src/integrations/supabase/types.ts:265-272 | A string is a ticket status exactly when it is in the name list, and the status prints back as the string. |
| Schema.ParsePledgeStatus | src/integrations/supabase/types.ts:265-272 | The same for campaign purchase statuses. |
| Schema.ParseRaffleStatus | src/integrations/supabase/types.ts:265-272 | The same for raffle statuses. |
| JsNumbers.IntToString | supabase/functions/create-checkout/index.ts:112 | The printed quantity is non-empty, starts with '-' exactly for negatives, and is otherwise all decimal digits. |
| JsNumbers.ParseInt | supabase/functions/webhook-stripe/index.ts:55 | parseInt gives NaN exactly when no digit follows the skipped whitespace, sign and hex prefix. |
| JsNumbers.ParseIntOfToString | supabase/functions/create-checkout/index.ts:112 | parseInt reads back every integer that toString printed: the quantity survives the metadata round trip. |
| JsNumbers.RoundDiv | supabase/functions/create-checkout/index.ts:101 | Math.round of a quotient lies within half a unit of it, and an exact half rounds up. |
| RaffleTickets.InsertRows | src/pages/CriarRifa.tsx:169-175 | A multi-row insert succeeds exactly when its numbers are distinct and new. It then adds exactly those rows and keeps every old row. |
| RaffleTickets.NewTickets | src/pages/CriarRifa.tsx:163-167 | Creation generates numbers 1..N in order, all available, and none when N is not positive. |
| RaffleTickets.InitialTable | src/pages/CriarRifa.tsx:163-175 | After creation the table holds exactly the numbers 1..N, every one available. |
| RaffleTickets.NewTicketsFillTable | src/pages/CriarRifa.tsx:163-175 | Inserting the generated rows into an empty table succeeds and yields the 1..N table. |
| RaffleTickets.InitialTableSize | src/pages/CriarRifa.tsx:163-167 | The created table has N rows. |
| RaffleTickets.ReservedRows | src/components/rifas/PixPaymentModal.tsx:81-95 | One reserved row per selected number, in order, carrying the buyer's name, cpf and phone. |
| RaffleTickets.Reserve | src/components/rifas/PixPaymentModal.tsx:56-100 | The reservation as written. It ignores a second submit. It is refused as already sold exactly when a selected number has a row of any status, and it reports exactly those numbers. It reserves only when the check and the insert both succeed and every number is new and distinct. Otherwise the table is unchanged. |
| RaffleTickets.ReserveIntended | src/components/rifas/PixPaymentModal.tsx:56-100 | The corrected reservation. Only reserved or confirmed rows count as sold; available rows are taken over by the buyer and every other row is kept. |
| RaffleTickets.ValorTotal | src/components/rifas/PixPaymentModal.tsx:43 | The amount due is zero exactly when the price is zero or nothing is selected. |
| RaffleTickets.ScanFrom | supabase/functions/webhook-stripe/index.ts:59-74 | The scan returns a free number no smaller than its start and at most 99999, and none only when every number up to 99999 is taken. |
| RaffleTickets.NextNumber | supabase/functions/webhook-stripe/index.ts:59-74 | The next number is the smallest free number in 1..99999. When all of them are taken it falls back to 1, which is occupied. |
| RaffleTickets.AllocateFrom | supabase/functions/webhook-stripe/index.ts:57-91 | Every allocated number was free and lies in 1..99999. A failure stops the loop early; otherwise all iterations insert. |
| RaffleTickets.AllocateStep | supabase/functions/webhook-stripe/index.ts:57-86 | One loop iteration inserts the next free number and continues with it occupied. |
| RaffleTickets.PicksAbove | supabase/functions/webhook-stripe/index.ts:59-74 | When 1..m are all taken, every allocated number is above m. |
| RaffleTickets.AllocatesIncreasing | supabase/functions/webhook-stripe/index.ts:57-86 | The webhook hands out strictly increasing numbers. |
| RaffleTickets.AllocatesSmallestFree | supabase/functions/webhook-stripe/index.ts:57-86 | Each allocated number is the smallest one still free at that point: no free number is skipped. |
| RaffleTickets.Allocate | supabase/functions/webhook-stripe/index.ts:55-91 | The paid rows are added under new numbers and old rows are kept. A run without failure inserts exactly the paid quantity. |
| RaffleTickets.AllocateCompletes | supabase/functions/webhook-stripe/index.ts:57-91 | With enough free numbers below 100000 and no failing insert, the loop completes. |
| RaffleTickets.NextNumberAfterPrefix | supabase/functions/webhook-stripe/index.ts:59-74 | When exactly 1..m are taken, the next number is m+1. |
| RaffleTickets.AllocateAfterPrefix | supabase/functions/webhook-stripe/index.ts:57-91 | When exactly 1..m are taken, the webhook allocates m+1, m+2, ... in order. |
| RaffleTickets.FullTableAllocationFails | supabase/functions/webhook-stripe/index.ts:65-91 | On a full 1..99999 table the fallback number 1 collides, so the first insert fails and nothing is added. |
| RaffleTickets.SetStatus | src/pages/ConfirmarPagamentos.tsx:79-84 | Confirmation changes only the status of the one row, and keeps the table's numbers. |
| RaffleTickets.DeleteRow | src/pages/ConfirmarPagamentos.tsx:131-136 | Rejection deletes exactly that number's row and keeps every other row. |
| Plans.PlanoLimits | src/hooks/usePlanValidation.ts:39-50 | Each known plan allows as many campaigns as raffles, at least two of each, and at least 100000 tickets. An unknown plan string allows nothing. |
| Plans.DashboardPlanoLimits | src/pages/Dashboard.tsx:74-85 | The dashboard's copy of the table also gives zero limits exactly for an unknown plan. |
| Plans.DashboardAgrees | src/pages/Dashboard.tsx:74-85 | The dashboard's limits agree with the plan validation hook's for every string. |
| Plans.LimitsMonotone | src/hooks/usePlanValidation.ts:39-50 | A higher plan never allows fewer raffles, campaigns or tickets. |
| Plans.CurrentPlan | src/hooks/usePlanValidation.ts:52 | The current plan is the profile's plan, or economico when none is set, and is always a known plan name. |
| Plans.ProfileLimits | src/hooks/usePlanValidation.ts:52-55 | A profile's limits are never zero, and a profile without a plan gets the economico limits. |
| Plans.PlanGate | src/hooks/usePlanValidation.ts:38-55 | Every profile, including one without a plan, may create its first raffle and campaign. A user whose count has reached the limit is stopped. Whatever count a plan lets through, every dearer plan lets through too. |
| Plans.UnknownPlanBlocks | src/hooks/usePlanValidation.ts:39-55 | Under an unknown plan string nothing can be created. |
| Plans.PlanoLabel | src/pages/Dashboard.tsx:61-72 | Known plans are shown under a display label different from their stored name; unknown strings are shown as they are. |
| Plans.Recent | src/pages/Dashboard.tsx:239 | The dashboard list is the first n items, or all of them when there are fewer. |
| Subscription.PriceToPlan | supabase/functions/webhook-subscription-stripe/index.ts:71-79 | The Padrão price id maps to padrao and the Premium price id to premium, and no other id maps to either. |
| Subscription.SetPlanByEmail | supabase/functions/webhook-subscription-stripe/index.ts:84-94 | Exactly the users with the customer's e-mail get the new plan; every other user is unchanged. |
| Subscription.CustomerEmail | supabase/functions/webhook-subscription-stripe/index.ts:61-69 | An e-mail is found exactly when the customer exists and has a non-empty e-mail. |
| Subscription.HandleSubscription | supabase/functions/webhook-subscription-stripe/index.ts:47-140 | Other events are acknowledged without change. Created or updated events set the plan of the first price, and deleted events set economico, on the customer's users. It replies 500, with nothing changed, exactly when there is no e-mail, the update fails, or a created or updated event has no price. |
| Checkout.CustomerEmail | supabase/functions/create-checkout/index.ts:66 | The checkout e-mail is the cpf followed by "@checkout.local". |
| Checkout.UnitAmount | supabase/functions/create-checkout/index.ts:101 | The unit price is the total divided by the quantity, rounded to the nearest cent. |
| Checkout.CancelPath | supabase/functions/create-checkout/index.ts:108 | The cancel path is "/" + tipo + "/" + item id, and both parts can be read back out of it. |
| Checkout.CreateCheckout | supabase/functions/create-checkout/index.ts:17-148 | The request is rejected as missing data exactly when a required field is missing, and as an incomplete buyer exactly when a buyer field is empty. After those checks it fails exactly when the Stripe key is missing or a Stripe call fails. Otherwise the session carries the quantity, the rounded unit price, the cpf e-mail, the cancel URL, the product name and metadata holding the printed quantity. |
| Checkout.MetadataQuantityRoundTrip | supabase/functions/create-checkout/index.ts:109-116 | The webhook's parseInt reads back the exact quantity the checkout wrote into the metadata. |
| Checkout.ProductNames | supabase/functions/create-checkout/index.ts:47-62 | The product name for each tipo, with and without an item title ("Rifa", "Campanha" fallbacks). |
| PaymentWebhook.LoopCount | supabase/functions/webhook-stripe/index.ts:55-57 | The loop runs parseInt(quantidade) times when that is positive, and never for NaN or a non-positive value. |
| PaymentWebhook.HandleRaffle | supabase/functions/webhook-stripe/index.ts:53-92 | Only the paid raffle's table changes, and only by new confirmed rows for the buyer. A missing raffle fails any positive quantity. The reply is OK exactly when every insert succeeds. |
| PaymentWebhook.HandleCampaign | supabase/functions/webhook-stripe/index.ts:94-111 | A paid purchase of the parsed quantity is appended exactly when the quantity parses, the campaign exists and the insert succeeds; otherwise the reply is 500 and nothing changes. |
| PaymentWebhook.HandlePayment | supabase/functions/webhook-stripe/index.ts:40-125 | Other events, missing metadata and unknown tipos are acknowledged without change. Only a completed raffle payment touches raffles, and only a completed campaign payment touches purchases. |
| PaymentWebhook.RafflePurchaseInserts | supabase/functions/webhook-stripe/index.ts:55-92 | With enough free numbers, a raffle payment adds exactly the paid quantity of distinct confirmed rows and replies OK. |
| CreateRaffle.NewRifa | src/pages/CriarRifa.tsx:145-157 | A new raffle is active, has no winning ticket, belongs to the user and carries the entered quantity and the uploaded image. |
| CreateRaffle.GeneratedTickets | src/pages/CriarRifa.tsx:163-175 | The generated tickets form the table 1..N of available rows. |
| CreateRaffle.HandleSubmit | src/pages/CriarRifa.tsx:121-193 | Submitting stops at a missing PIX key, a failed upload or a failed raffle insert, each time with nothing written. A failed ticket insert leaves the raffle with an empty table. Success stores the raffle with the table 1..N. |
| CreateRaffle.SubmitRaffle | src/pages/CriarRifa.tsx:40-85 | The page shows the limit screen, and submits nothing, exactly when the plan allows no further raffle. |
| CreateRaffle.AddRaffleCounts | src/hooks/usePlanValidation.ts:9-22 | Adding a raffle raises its owner's raffle count by one and leaves other users' counts alone. |
| CreateRaffle.CreationCounts | src/pages/CriarRifa.tsx:145-161 | A stored raffle, with or without tickets, counts once against its creator. |
| CreateRaffle.LimitPreserved | src/pages/CriarRifa.tsx:40-85 | A user within the raffle limit stays within it after submitting. |
| CreateRaffle.TicketCapNotEnforced | src/pages/CriarRifa.tsx:273 | The submit handler does not re-check the plan's ticket cap: a quantity above it that reaches the handler creates the raffle with that many tickets. |
| CreateCampaign.SubmitCampaign | src/pages/CriarCampanha.tsx:93-151 | A campaign is created exactly when the PIX key is set, the upload and the insert succeed and the id is new. Every other outcome writes nothing. |
| CreateCampaign.PrizesNotStored | src/pages/CriarCampanha.tsx:119-129 | The prize titles typed on the page do not affect what is stored. |
| ConfirmPayments.PendingTickets | src/pages/ConfirmarPagamentos.tsx:18-39 | The pending ticket list holds exactly the reserved tickets of the organiser's raffles. |
| ConfirmPayments.PendingPledges | src/pages/ConfirmarPagamentos.tsx:48-70 | The pending purchase list holds exactly the awaiting purchases of the organiser's campaigns. |
| ConfirmPayments.ConfirmTicket | src/pages/ConfirmarPagamentos.tsx:79-84 | The ticket's row becomes confirmed and keeps its buyer. Every other row of the raffle, every other raffle and the campaign tables are unchanged, and a missing ticket or a failed update changes nothing. |
| ConfirmPayments.RejectTicket | src/pages/ConfirmarPagamentos.tsx:131-136 | The ticket's number has no row afterwards. Every other row of the raffle, every other raffle and the campaign tables are unchanged. A failed delete changes nothing. |
| ConfirmPayments.SetPledgeStatus | src/pages/ConfirmarPagamentos.tsx:104-109 | Exactly the purchases with that id get the new status. |
| ConfirmPayments.ConfirmPledge | src/pages/ConfirmarPagamentos.tsx:104-109 | The purchase list keeps its length. Purchases with that id become paid with every other field kept, the other purchases and the raffle and campaign tables are unchanged. A failed update changes nothing. |
| ConfirmPayments.RejectPledge | src/pages/ConfirmarPagamentos.tsx:137-142 | The purchase stays in the list, cancelled, with every other field kept. The other purchases and the raffle and campaign tables are unchanged. A failed update changes nothing. |
| ConfirmPayments.ConfirmTicketIdempotent | src/pages/ConfirmarPagamentos.tsx:79-84 | Confirming twice is the same as confirming once. |
| ConfirmPayments.ResolvingTicketLeavesPending | src/pages/ConfirmarPagamentos.tsx:18-39 | Confirming or rejecting a ticket removes exactly it from the pending list. |
| ConfirmPayments.SettlingPledgeLeavesPending | src/pages/ConfirmarPagamentos.tsx:48-70 | Giving a purchase any status other than aguardando removes exactly it from the pending list. |
| ConfirmPayments.ResolvingPledgeLeavesPending | src/pages/ConfirmarPagamentos.tsx:104-142 | Confirming or rejecting a purchase removes exactly it from the pending list. Rejection keeps the row, cancelled. |
| ConfirmPayments.ConfirmPledgeIdempotent | src/pages/ConfirmarPagamentos.tsx:104-109 | Confirming a purchase twice is the same as once. |
| Grid.Find | src/components/rifas/GridNumerosRifa.tsx:28 | The lookup finds a ticket with that number exactly when one is listed. |
| Grid.Without | src/components/rifas/GridNumerosRifa.tsx:32 | Deselecting removes every copy of the number and keeps the rest. |
| Grid.Click | src/components/rifas/GridNumerosRifa.tsx:25-37 | A click on a closed raffle, a missing number or a non-available number changes nothing. Otherwise it toggles the number, appending it at the end, and reports the new selection. |
| Grid.WithoutKeepsDistinct | src/components/rifas/GridNumerosRifa.tsx:32 | Removing a number keeps a duplicate-free selection duplicate-free. |
| Grid.ClickKeepsDistinct | src/components/rifas/GridNumerosRifa.tsx:25-37 | Clicking keeps a duplicate-free selection duplicate-free. |
| Grid.ClickTwiceRestores | src/components/rifas/GridNumerosRifa.tsx:31-33 | Clicking a number twice restores the selection. |
| Grid.WithoutAppended | src/components/rifas/GridNumerosRifa.tsx:31-33 | Removing a just-appended number gives back the earlier selection. |
| Grid.MaxNumero | src/components/rifas/GridNumerosRifa.tsx:90 | The grid's size is the largest ticket number listed, or 0. |
| Grid.GridNumbers | src/components/rifas/GridNumerosRifa.tsx:90-91 | The grid shows the cells 1..max, and none for an empty list. |
| StableSort.Insert | src/pages/CampanhaDetalhes.tsx:77 | Inserting into a descending list keeps it descending and adds exactly that element. |
| StableSort.Sort | src/pages/CampanhaDetalhes.tsx:77 | The sorted list is descending by the key and a permutation of the input. |
| StableSort.SumBySort | src/pages/CampanhaDetalhes.tsx:77 | Sorting does not change any sum over the list. |
| StableSort.SortSameElements | src/pages/CampanhaDetalhes.tsx:77 | The sorted list holds the same elements as the input. |
| StableSort.WithKeyInsert | src/pages/CampanhaDetalhes.tsx:77 | An inserted element goes ahead of every element with the same key and leaves the order among each other key unchanged. |
| StableSort.SortStable | src/pages/CampanhaDetalhes.tsx:77 | The sort is stable: for every key, the elements with that key appear in the same relative order as in the input. |
| CampaignDetails.PaidPledges | src/pages/CampanhaDetalhes.tsx:55-59 | The ranking reads exactly the paid purchases of this campaign. |
| CampaignDetails.AddPurchaseTotals | src/pages/CampanhaDetalhes.tsx:64-75 | Adding a purchase raises exactly its buyer's total by its quantity. |
| CampaignDetails.AddPurchaseNameList | src/pages/CampanhaDetalhes.tsx:64-75 | A new buyer name is appended; a known one leaves the name list unchanged. |
| CampaignDetails.AddPurchaseNames | src/pages/CampanhaDetalhes.tsx:64-75 | Adding a purchase keeps buyer names unique. |
| CampaignDetails.AddPurchaseSums | src/pages/CampanhaDetalhes.tsx:64-75 | Adding a purchase raises the sum of all totals by its quantity. |
| CampaignDetails.GroupNames | src/pages/CampanhaDetalhes.tsx:64-75 | Grouping lists each buyer name once, and exactly the names that bought. |
| CampaignDetails.GroupTotals | src/pages/CampanhaDetalhes.tsx:64-75 | Each buyer's total is the sum of that buyer's quantities, and all totals add up to the quantities bought. |
| CampaignDetails.RankingTotals | src/pages/CampanhaDetalhes.tsx:55-78 | The ranking is ordered by total, descending. Each buyer's total is the sum of that buyer's paid quantities, and the totals add up to all paid quantities. |
| CampaignDetails.RankingNames | src/pages/CampanhaDetalhes.tsx:55-78 | The ranking lists each paying buyer exactly once. |
| CampaignDetails.PaidSumAtMostAll | src/pages/CampanhaDetalhes.tsx:54-58 | Over one campaign's purchases with no negative quantity, the paid quantities sum to at most all quantities. With positive quantities the two sums agree exactly when every purchase is paid. |
| CampaignDetails.HeaderTotalVersusRanking | src/pages/CampanhaDetalhes.tsx:127-129 | The header's ticket total counts every purchase of the campaign, whatever its status. It is never below the ranking's total, and with positive quantities it equals it exactly when every purchase is paid. |
| Interactions.PurchaseBoxCharge | src/pages/CampanhaDetalhes.tsx:131 | The buy button is enabled exactly for a quantity of at least one. Then the checkout built from the amount shown charges exactly the ticket price per ticket, so the charged total is the amount shown. |
| SellerStats.WithStatus | src/pages/MinhasRifas.tsx:120-125 | The filter keeps exactly the rows with that status. |
| SellerStats.StatusPartition | src/pages/MinhasRifas.tsx:120-125 | The available, reserved and confirmed counts add up to the number of rows. |
| SellerStats.SoldAndReservedDisjoint | src/pages/MinhasRifas.tsx:120-125 | The sold and reserved lists share no row and together do not exceed the rows. |
| SellerStats.RevenueAtMostPossible | src/pages/MinhasRifas.tsx:120-265 | With a non-negative price the amount collected is never negative. It stays within the total possible when no more tickets are confirmed than the raffle has, and exceeds it, at a positive price, when more are. |
| Interactions.OversoldAfterCreation | src/pages/MinhasRifas.tsx:120-265 | After a card purchase of more tickets than a freshly created raffle has, the seller card shows more collected than the total possible. |
| SellerStats.AvailableCountsMissingRows | src/pages/MinhasRifas.tsx:258 | "Disponíveis" counts the numbers in 1..N that have no row, whatever the status of the rows that exist. |
| SellerStats.AvailableAfterCreation | src/pages/MinhasRifas.tsx:258 | Right after creation all N rows are available, yet the card shows 0 available. |
| SellerStats.BuyerPanel | src/pages/MinhasRifas.tsx:271-299 | The buyer tab appears exactly when a ticket is confirmed. It shows the first five confirmed rows, plus a "+k" label exactly when more than five were sold, with k the remainder. |
| TicketLookup.MatchingTickets | src/hooks/useMeusBilhetes.ts:16-31 | Exactly the ticket rows whose cpf and phone both equal the searched ones. |
| TicketLookup.MatchingPledges | src/hooks/useMeusBilhetes.ts:36-51 | Exactly the campaign purchases whose cpf and phone both equal the searched ones. |
| TicketLookup.TicketEntry | src/hooks/useMeusBilhetes.ts:56-68 | A ticket shows as one unit with its number, status and raffle, titled "Rifa removida" when the raffle is gone. |
| TicketLookup.PledgeEntry | src/hooks/useMeusBilhetes.ts:69-80 | A purchase shows with its own quantity and no number, titled "Campanha removida" when the campaign is gone. |
| TicketLookup.Merge | src/hooks/useMeusBilhetes.ts:56-80 | The merged list holds the ticket entries, then the purchase entries, in order. |
| TicketLookup.Lookup | src/hooks/useMeusBilhetes.ts:14-83 | The lookup fails exactly when either query fails. Otherwise it is sorted newest first and is a permutation of the merged matches. |
| TicketLookup.LookupSize | src/hooks/useMeusBilhetes.ts:56-83 | The lookup lists one entry per matching ticket plus one per matching purchase. |
| TicketLookup.LookupEntriesMatch | src/hooks/useMeusBilhetes.ts:16-80 | Every listed entry comes from a row recorded under exactly the searched cpf and phone. |
| TicketLookup.LookupComplete | src/hooks/useMeusBilhetes.ts:16-80 | Every row recorded under the searched cpf and phone is listed. |
| TicketLookup.Enabled | src/hooks/useMeusBilhetes.ts:84 | The query runs exactly after a search with both fields non-empty. |
| Prizes.Adicionar | src/components/campanhas/FormularioPremios.tsx:22-29 | Adding appends one empty prize at position length + 1 and keeps the rest. |
| Prizes.AddKeepsNumbering | src/components/campanhas/FormularioPremios.tsx:22-29 | Adding keeps positions 1, 2, ... in list order. |
| Prizes.Without | src/components/campanhas/FormularioPremios.tsx:32 | Removing drops exactly the element at the index, and nothing when the index is outside the list. |
| Prizes.Renumber | src/components/campanhas/FormularioPremios.tsx:33-37 | Renumbering sets positions 1, 2, ... and keeps every prize's content. |
| Prizes.Remover | src/components/campanhas/FormularioPremios.tsx:31-39 | Removing leaves a renumbered list of the other prizes, in order. |
| Prizes.RemoveUndoesAdd | src/components/campanhas/FormularioPremios.tsx:22-39 | Removing the prize just added restores the numbered list. |
| Prizes.Atualizar | src/components/campanhas/FormularioPremios.tsx:41-46 | Editing sets one field of the element at the index and changes no other element. |
| Prizes.UpdateKeepsNumbering | src/components/campanhas/FormularioPremios.tsx:41-46 | Editing a field other than the position keeps the numbering. |
| Prizes.AddTitle | src/pages/CriarCampanha.tsx:53-55 | Adding appends one empty title. |
| Prizes.RemoveTitle | src/pages/CriarCampanha.tsx:57-61 | Removing drops the title at the index, but never the last remaining one. |
| Prizes.UpdateTitle | src/pages/CriarCampanha.tsx:63-67 | Editing replaces exactly the title at the index. |
| Prizes.TitlesNeverEmpty | src/pages/CriarCampanha.tsx:53-67 | No sequence of edits empties a non-empty title list. |
| Prizes.InitialTitlesNeverEmpty | src/pages/CriarCampanha.tsx:29 | The page's list, which starts with one empty title, always holds at least one title. |
| Forms.Utf16Length | src/pages/Cadastro.tsx:40 | A password's length counts UTF-16 code units: between its character count and twice that. |
| Forms.SubmitSignUp | src/pages/Cadastro.tsx:31-60 | Sign-up reports a mismatch exactly when the passwords differ, and a short password exactly when they agree but have fewer than 6 code units. Otherwise it signs up with the entered e-mail, password and name. |
| Forms.MismatchFirst | src/pages/Cadastro.tsx:31-47 | Two different short passwords are reported as a mismatch. |
| Forms.LengthCountsCodeUnits | src/pages/Cadastro.tsx:40-47 | Six characters always pass the length check, and so do three characters outside the Basic Multilingual Plane. |
| Forms.SubmitSearch | src/components/meus-bilhetes/SearchForm.tsx:20-28 | The search goes through, with the fields unchanged, exactly when both fields are non-empty. |
| Forms.BlankIsFilledIn | src/components/meus-bilhetes/SearchForm.tsx:20-27 | A field holding only a space counts as filled in. |
| Forms.SearchEnablesLookup | src/pages/MeusBilhetes.tsx:20-24 | The lookup query is enabled exactly when the search form lets the search through. |
| Forms.Comprar | src/pages/RifaDetalhes.tsx:63-83 | The buy button reports an empty selection first, then missing buyer data, and opens the PIX modal exactly when both are present. |
| Forms.ClosedRaffleFrozen | src/pages/RifaDetalhes.tsx:199-263 | A closed raffle disables the buy button and makes every grid click a no-op. |
| Interactions.ReserveAfterCreationRefused | src/components/rifas/PixPaymentModal.tsx:64-78 | After creation, a selection containing any number in 1..N is refused as sold, with exactly those numbers reported and nothing changed. |
| Interactions.OneTicketRaffleUnreservable | src/components/rifas/PixPaymentModal.tsx:64-78 | The only ticket of a freshly created one-ticket raffle cannot be reserved. |
| Interactions.ReserveIntendedAfterCreation | src/components/rifas/PixPaymentModal.tsx:64-95 | With the corrected check, any duplicate-free choice in 1..N is reserved for the buyer, and the other numbers stay available. |
| Interactions.GridSelectionRefused | src/components/rifas/GridNumerosRifa.tsx:28-29 | Every non-empty selection the grid allows is refused by the reservation as written. |
| Interactions.GridSelectionReservedIntended | src/components/rifas/GridNumerosRifa.tsx:28-29 | The corrected reservation accepts every duplicate-free selection the grid allows. |
| Interactions.WebhookAfterCreation | supabase/functions/webhook-stripe/index.ts:59-86 | On a freshly created raffle of N tickets, q paid tickets get the numbers N+1..N+q. |
| Interactions.PaidTicketsAfterCreatedRaffle | supabase/functions/webhook-stripe/index.ts:55-92 | A raffle created through the page and then paid by card keeps 1..N available and gives the buyer N+1..N+q, numbers the raffle never offered. |
| Interactions.PaidTicketsOnNewTable | supabase/functions/webhook-stripe/index.ts:57-86 | The same at the level of the ticket table. |
| Interactions.RejectThenReserve | src/pages/ConfirmarPagamentos.tsx:131-136 | A rejected ticket's number can be reserved again. |
| Interactions.ReservedNumberStaysTaken | src/components/rifas/PixPaymentModal.tsx:64-95 | A reserved number is refused to the next buyer and is never picked by the webhook. |
| Interactions.CheckoutQuantityReachesWebhook | supabase/functions/webhook-stripe/index.ts:55-57 | A checkout for a positive quantity makes the webhook loop run exactly that many times, and a campaign purchase record that quantity. |

## Left out

- I/O is replaced by explicit inputs: network calls, Supabase queries, Stripe calls and storage uploads. A write's or a Stripe call's failure is a boolean parameter or a `failAt` index: the creation inserts, the image upload, the subscription update, the confirm and reject mutations, the checkout's Stripe calls and the webhook's inserts. Authentication is an input user row. Stripe signature checks, React state and rendering are not modelled.
- Concurrency is not modelled. Two buyers racing between the modal's existence check and its insert, and webhook deliveries racing each other, are outside the model, which treats each handler as atomic.
- Money is integer cents. `parseFloat` of form fields and `toFixed(2)` formatting are not modelled.
- Checkout.CreateCheckout: takes the quantity as an integer. The campaign page reads it with `Number(e.target.value)` (`src/pages/CampanhaDetalhes.tsx:262`) and enables the button for any value of at least 1 (`:317`), so a fractional quantity such as 1.5 reaches the checkout, which the model does not represent.
- CampaignDetails.PurchaseBox: takes the quantity as an integer, for the same reason.
- Browser form validation is not modelled: the `required`, `min`, `max` and `type="email"` attributes checked before a submit handler runs (`src/pages/CriarRifa.tsx:226-277`, `src/pages/Cadastro.tsx:116-180`, `src/pages/CriarCampanha.tsx:184-209`). Each handler is modelled on whatever input reaches it, so CreateRaffle.TicketCapNotEnforced describes the handler alone.
- JsNumbers.IntToString: prints plain decimal. JavaScript switches to exponent notation from 1e21 on, which is far beyond any ticket quantity.
- The ticket table assumes that (rifa_id, numero) is unique: inserting an existing number is an insert error. The migrations that would say so are not part of this model.
- ConfirmPayments.PendingTickets: reads the filter on the embedded raffle's owner as an inner join. Without `!inner`, PostgREST would return other organisers' reserved tickets with a null embedded raffle.
- ConfirmPayments.PendingPledges: reads the filter on the embedded campaign's owner (`src/pages/ConfirmarPagamentos.tsx:69`) as an inner join. Without `!inner`, PostgREST would return other organisers' awaiting purchases with a null embedded campaign.
- RaffleTickets.NextNumber: assumes the webhook's select of the raffle's numbers (`supabase/functions/webhook-stripe/index.ts:58-62`) returns every row. That select has no range, so PostgREST's default row cap (1000 unless configured otherwise) could hide occupied numbers and let the allocator pick one of them. An error from that same select is ignored: the data is null and the pick falls back to 1 (`:64-65`); the model has no input for that failure.
- Errors from the read-only queries are not modelled: the pending lists (`src/pages/ConfirmarPagamentos.tsx:42`, `:73`), the campaign page's queries, the seller's raffle list and the dashboard. On such an error the page shows no data and changes nothing. The lookup's two queries are the exception: TicketLookup.Lookup fails exactly when either fails.
- CampaignDetails.GroupNames: the ranking's reduce (`src/pages/CampanhaDetalhes.tsx:64-75`) accumulates into a plain `{}` object. A buyer named after an inherited property (`constructor`, `toString`, `valueOf`, `hasOwnProperty`, `__proto__`) finds a truthy inherited value, gets no entry of their own and vanishes from the ranking. The model gives every name its own entry.
- CampaignDetails.GroupTotals, CampaignDetails.RankingTotals and CampaignDetails.RankingNames: inherit the line above, so their totals and names hold only for buyer names that are not inherited properties of `Object.prototype`.
- CampaignDetails.RankingTotals: also groups buyers in first-seen order before the stable sort. `Object.values` lists integer-like names first, in numeric order, which only changes the order among equal totals.
- TicketLookup.Lookup: takes creation times as milliseconds. Parsing the `created_at` strings is not modelled.
- The lookup's queries select `is_ganhador`, and `numero` on bilhetes_campanha, which `src/integrations/supabase/types.ts` does not declare. The model assumes both selects succeed.
- The count queries that feed the plan gate show 0 while loading; only loaded counts are modelled.
- The prize form component (`Prizes.Adicionar` and the rest) is modelled as written, but no page of the application renders it.
- Prizes.UpdateTitle: requires an index inside the list. Assigning past the end of a JavaScript array would extend it, but the page only offers indices of existing titles.
- `src/pages/RifaDetalhes.tsx:252` sorts the selection state array in place while rendering. The model keeps the selection in click order.
- Drawing a winner, QR-code generation for PIX, image cropping and the dashboard's charts are not modelled.

## Findings

| source | as written | input that shows it | evidently intended | confidence | as-written member | corrected member |
|---|---|---|---|---|---|---|
| src/components/rifas/PixPaymentModal.tsx:64-78 | Refuses a number as already sold whenever any row exists for it. Raffle creation (`src/pages/CriarRifa.tsx:163-175`) writes an available row for every number 1..N, so no number of a created raffle can ever be reserved. | A raffle created with quantity 1, then a reservation of number 1: refused as already sold. | Refuse only numbers whose row is reserved or confirmed, and take over available rows for the buyer. | high, not executed | Interactions.OneTicketRaffleUnreservable (on RaffleTickets.Reserve) | RaffleTickets.ReserveIntended, with Interactions.ReserveIntendedAfterCreation |
| src/components/rifas/GridNumerosRifa.tsx:28-29 | The grid lets a buyer select only numbers whose row exists and is available; the reservation refuses every such number. | Any non-empty selection made through the grid. | Grid selections can be reserved. | high, not executed | Interactions.GridSelectionRefused | Interactions.GridSelectionReservedIntended |
