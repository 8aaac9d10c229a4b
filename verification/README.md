# Konstruado: a model and its proofs

Konstruado is a deal between two people, a principal (mandante) and a contractor
(contratista). A job is cut into stages, each stage is paid from a box that both must sign
for, each device keeps its own copy of the job, and copies are reconciled by gossip with no
server. This project models what decides whether that is safe, in Dafny, and proves it for
all inputs and all runs.

`dafny verify dfyconfig.toml` checks the project.

| part | modules |
|---|---|
| The job: data, actions, merge of stages and jobs | `Partidas`, `Obras`, `Acuerdo` (specification), `PartidasLocal`, `AcuerdoLocal` (the fields updated in place), `Efectos` (what each action means), `Cuotas`, `Precio` |
| What one merge guarantees, and its limits | `FusionPartida`, `FusionObras`, `FusionLimites` |
| Whole runs: devices, relays, snapshots of any age | `Acciones`, `Corrida`, `CorridaLocal`, `CorridaSegura`, `CorridaCierre`, `CorridaEjemplo`, `CorridaEntrega`, `Dinero`, `CorridaDinero`, `FusionDinero` |
| Which buttons exist, on one copy and in whole runs | `Botones`, `CorridaBotones` |
| Restoring a backup, cut at any step | `Restauracion`, `RestauracionTraza`, `RestauracionLocal` |
| The board of offers and its tombstones | `Tablero`, `TableroConverge`, `Lapidas` |
| Ledgers and the box scan | `Billetera`, `CajaLibro`, `Cobertura` |
| Paying out, choosing outputs | `Reparto`, `Eleccion` |
| Money as text; the price answer | `TextoDinero`, `Texto`, `Utf8`, `Http` |

Operations that the program does in place are class methods or loops proved against a
specification function (`ObraLocal.AceptarPago` against `Acuerdo.AceptarPago`), and the
properties are lemmas about those functions and about runs of them. The clock, randomness
and what the chain shows are parameters. SHA-256 is an uninterpreted function from texts to
optional texts (it includes reading the proof as hexadecimal). Sealing and opening texts,
stamping keys and seeing transactions are arbitrary changes of the fields they touch.
Machine integers are written out: `u32` and `u64` are ranges, and wrapping, saturating and
checked arithmetic appear as such.

## What the code does not do

These follow the code where its documentation or a first reading promises more. Each is a
lemma on all inputs, with the exact condition.

- The merge is not commutative (`EstadoConmutaSi`), and a cancelled lock comes back when its
  proposal is delivered again (`LaCanceladaVuelve`, `PendienteSigueSi`).
- Crossed lock proposals end with one price only if the surviving one carries its price or the
  other has none (`PreciosCruzadosConmutanSi`).
- One delivery is enough between the copies that the actions make
  (`UnaEntregaAlcanzaEnCorridas`), but not of a lock that came without its number: moving forward
  returns early and skips the amount (`UnaEntregaAlcanzaSi`, `UnaReentregaNoAlcanza`).
- A copy that is further along shortens the stage list, so an accepted extra stage can be lost
  (`SeAcortaSi`, `LaExtraAceptadaSePierde`); a pending extra that arrives together with another
  stage is lost (`LaExtraPendienteLlegaSi`, `LaExtraQueLlegaConOtraSePierde`). Two people who
  accepted different extra stages end with a price that the stages do not hold
  (`FusionCuadraSi`, `FusionCuadraMismaCuenta`, `DosExtrasDescuadran`).
- Two copies of a stage under negotiation can keep two prices for good, when one person funds
  and reports finish while the other cancels and proposes again (`UnSoloPrecioSi`,
  `DosPreciosEnTrato`).
- A closing that was asked for stays open when the last payment closes the job, and both clients
  offer to accept it there. The copy then says Abandonada with every stage paid, until it
  receives another copy (`TodaCopiaCierraBienSi`, `TodaCopiaCierra`, `LaQueRecibeCierraBien`,
  `UnaPagadaAbandonada`).
- `confirmar_contra`, `rechazar_contra` and `encerrar_proponer_con` do not look at the state of the
  job; the interface does. What each breaks without it and exactly when is in
  `ConfirmarCuadraSi`, `RechazarSinGuarda` and `ProponerSinGuarda`. Runs assume these guards and
  that the 32-bit stage count has room for an extra stage, which nothing checks
  (`AceptarExtraSinGuarda`); they assume no other (`Acciones.Permitida`).
- The desktop program runs on after a failed start and writes live entries. What it writes under
  a name that is already in place stays, and a later start still reports success
  (`EscritoValeSi`, `RestauradaSi`).
- `preparar` deletes a restore that is still waiting entry by entry; cut there, the next start
  completes what is left (`RoidaValeSi`, `ReemplazarCortado`).
- `preparar` goes on when it could not clear the staging folder, and what stayed there is restored
  with the backup (`DataDir.Preparar`, `DataDir.Restaurar`).
- Two tombstones of the same date stay in the order in which they came (`DosOrdenesIgualesSi`).
- Cleaning a stage text twice can shorten it (`LimpiarDosVecesSi`).
- The chunk decoder accepts a stream cut just before the end of a chunk as a whole one, and
  never looks at the two bytes that close a chunk (`SeAceptaSi`, `CortadaPasaPorEntera`).
- `elegir_montos` gives up when the eight smallest outputs do not cover the amount, even if one
  bigger output does (`HayEleccionSi`, `OchoMigasTapanLaGrande`).
- `fmt_xmr` prints amounts from ten million XMR that `piconero_de` refuses (`XmrIdaYVuelta`).
- `n_partidas` casts the count to 32 bits (`NPartidasCubreElTrabajo`, `NuevaObraCuadra`).

## Model

| member | source | states |
|---|---|---|
| `CorridaSegura.NegociacionSegura` | crates/konstruado-core/src/acuerdo.rs:189-294 | Whole runs: with both parties acting only on their own copy and any relays merging snapshots of any age in any order, there is at every point one note history per base stage (valid: authors alternate, no percentage repeats, the payment is the last percentage) of which every copy on a device or in flight holds a prefix, with its proposal and turn; what happens later only adds to it |
| `CorridaSegura.PagosDeAcuerdo` | crates/konstruado-core/src/acuerdo.rs:739-768 | In every reachable world any two paid copies of a base stage agree on the payment, the receipt and all the notes |
| `CorridaSegura.UnoSoloJuega` | crates/konstruado-core/src/acuerdo.rs:672-768 | In every reachable world at most one of the two people can finish, counter or accept on a stage, with whatever percentage, note and clock; once any copy anywhere has it paid, neither can |
| `CorridaSegura.EventoConserva` | crates/konstruado-core/src/acuerdo.rs:1103-1206 | Every event (an action of a person or of the engine, a snapshot, a delivery, an adoption, sealing) keeps the run invariant and only extends the histories; payments, lock confirmations and answers to a closing may come at any time, also on a finished job |
| `AcuerdoLocal.Vivir` | crates/konstruado-core/src/acuerdo.rs:189-294 | Driving the mutable copies through any list of events reaches exactly the world of the run, and that world has one note history per stage |
| `Corrida.DesdeOfertaEsTrato` | crates/konstruado-core/src/acuerdo.rs:487-525 | A job made from an accepted offer between two distinct people is a start state of those runs |
| `CorridaLocal.FusionFiel` | crates/konstruado-core/src/acuerdo.rs:189-294 | Merging two points of one history gives a point of that history |
| `CorridaCierre.TodaCopiaCierra` | crates/konstruado-core/src/acuerdo.rs:1188-1197 | After any run every copy, stored or in flight, has as many stages as it counts and is closed only when it has stages and all are paid; it closes exactly (closed if and only if all are paid) if and only if it is not a fully paid job that was abandoned |
| `CorridaCierre.TodaCopiaCierraBienSi` | crates/konstruado-core/src/acuerdo.rs:887-900 | Along a run every copy always closes exactly if and only if nobody accepts a closing on a job that is closed already, for every run |
| `CorridaCierre.EventoCierraBienSi` | crates/konstruado-core/src/acuerdo.rs:1103-1206 | The same of one event, whatever it is, from any world in which every copy closes exactly |
| `CorridaCierre.LaQueRecibeCierraBien` | crates/konstruado-core/src/acuerdo.rs:1103-1197 | Whatever happened before, a copy that has just received another one closes exactly |
| `CorridaCierre.AceptarCierreExactoSi` | crates/konstruado-core/src/acuerdo.rs:887-900 | Accepting a closing keeps closing exact if and only if the job was not closed yet |
| `CorridaEjemplo.PagarYAceptar` | crates/konstruado-core/src/acuerdo.rs:739-768 | On any job with a closing asked for and one stage left to pay: paying it closes the job exactly and keeps the request, and whoever accepts it then leaves a fully paid job abandoned |
| `CorridaEjemplo.UnaPagadaAbandonada` | crates/konstruado-core/src/acuerdo.rs:887-900 | For any two people a run of events from the deal on reaches a copy of that kind, on the device of the principal |
| `Partidas.RestaurarNotas` | crates/konstruado-core/src/acuerdo.rs:304-316 | The loop over notes gives exactly the list in which each note with no text of its own takes back the local text |
| `Partidas.ElevarCajas` | crates/konstruado-core/src/acuerdo.rs:318-328 | The loop over notes gives exactly the list in which sealed boxes and ciphertexts are lifted from the other copy |
| `PartidasLocal.PartidaLocal.Fusionar` | crates/konstruado-core/src/acuerdo.rs:189-294 | A delivery in place: the stage is not behind the old one, what is fixed stays, the lock number is the larger one; the same copy delivered again changes at most three fields and then none |
| `PartidasLocal.PartidaLocal.Recibir` | crates/konstruado-core/src/acuerdo.rs:189-294 | Any list of deliveries in place: nothing goes back and what is fixed stays |
| `Partidas.NucleosEstables` | crates/konstruado-core/src/acuerdo.rs:304-328 | Restoring and lifting texts never changes who wrote a note, when, or its percentage |
| `FusionPartida.FusionNoRetrocede` | crates/konstruado-core/src/acuerdo.rs:189-294 | A merged stage is never behind the old one (below EnTrato: lock number, then state; from EnTrato: state), the lock number is the larger one, and price at EnTrato or later, transaction ids and amount do not change |
| `FusionPartida.NingunaEntregaRetrocede` | crates/konstruado-core/src/acuerdo.rs:189-294 | The same for any list of deliveries, stale, repeated or reordered |
| `FusionPartida.ReentregaEsEstable` | crates/konstruado-core/src/acuerdo.rs:189-294 | A second delivery of a copy fills in at most the three fields that the first skips, and from then on no field changes |
| `FusionLimites.UnaEntregaAlcanzaSi` | crates/konstruado-core/src/acuerdo.rs:229-253 | One delivery of a copy is all it can bring unless it moves the stage forward past its number and leaves the amount, the turn of a paid copy or the time of a lock without proposer for the second: exactly then |
| `FusionLimites.UnaReentregaNoAlcanza` | crates/konstruado-core/src/acuerdo.rs:246-253 | A concrete pair of the other kind, for every amount: a lock without number, whose amount only the second delivery brings |
| `CorridaEntrega.UnaEntregaAlcanzaEnCorridas` | crates/konstruado-core/src/acuerdo.rs:189-294 | In every reachable world, between any two copies, one delivery is all a base stage can get |
| `FusionLimites.EstadoConmutaSi` | crates/konstruado-core/src/acuerdo.rs:194-230 | For all copies: merging in either direction gives the same state if and only if notes were written, or the numbers are equal, or the copy with the larger number is not behind |
| `FusionLimites.PendienteSigueSi` | crates/konstruado-core/src/acuerdo.rs:229-233 | A pending stage stays pending if and only if what arrives is pending, whatever the numbers |
| `FusionLimites.LaCanceladaVuelve` | crates/konstruado-core/src/acuerdo.rs:657-670 | After proposing and cancelling a lock, the old proposal delivered again reopens it, while the other order leaves it cancelled |
| `FusionLimites.PreciosCruzadosConmutanSi` | crates/konstruado-core/src/acuerdo.rs:221-227 | Crossed proposals end with one price in both orders if and only if the surviving one has a price or the other has none |
| `FusionPartida.PropuestasCruzadasConvergen` | crates/konstruado-core/src/acuerdo.rs:210-228 | Two devices that saw the same crossed lock proposals, each with a price, in any order and number, keep the same proposer, time and price |
| `FusionPartida.CruzadasConvergenAlMenor` | crates/konstruado-core/src/acuerdo.rs:210-228 | That proposal is the one of the smallest identifier seen, after any list of deliveries |
| `Obras.FusionarPartidas` | crates/konstruado-core/src/acuerdo.rs:1199-1205 | The resize-and-merge loop gives, at every place, the merge of the two stages there, a missing one counting as fresh |
| `AcuerdoLocal.ObraLocal.Fusionar` | crates/konstruado-core/src/acuerdo.rs:1103-1197 | A delivery in place: rank and numbers never fall, the result closes exactly when both copies were counted and closed only when paid, and the stage list is the old one or the two merged place by place |
| `FusionLimites.SeAcortaSi` | crates/konstruado-core/src/acuerdo.rs:1112-1125 | A merge shortens the stage list if and only if the other job is further along and counts fewer stages |
| `FusionLimites.LaExtraAceptadaSePierde` | crates/konstruado-core/src/acuerdo.rs:1112-1125 | It happens: an extra stage accepted on one copy is lost when the other person, on a copy that still has it pending, proposes a lock |
| `FusionLimites.LaExtraQueLlegaConOtraSePierde` | crates/konstruado-core/src/acuerdo.rs:1144-1153 | A copy that brings more stages and a pending extra at once loses that extra, in this delivery and in any repetition |
| `FusionLimites.LaExtraPendienteLlegaSi` | crates/konstruado-core/src/acuerdo.rs:1144-1156 | Between copies in the same open state a newer pending extra arrives if and only if the copy that brings it does not count more stages |
| `FusionObras.FusionPorPartida` | crates/konstruado-core/src/acuerdo.rs:1112-1151 | Every stage of a merged job is the old one or the merge of the two at its place, and the stage count is that of one of the two jobs |
| `FusionObras.FusionObraNoRetrocede` | crates/konstruado-core/src/acuerdo.rs:1103-1197 | The merged job ranks at least as high as both, its extra and closing numbers are the larger ones, and a refused extra stage or closing stays absent against any copy that is not newer |
| `FusionObras.LoRechazadoNoVuelve` | crates/konstruado-core/src/acuerdo.rs:1144-1180 | The same for any list of deliveries |
| `FusionObras.FusionDejaCierreExacto` | crates/konstruado-core/src/acuerdo.rs:1103-1206 | If two copies count their stages, are closed only when all are paid and are closed or abandoned when all are, then their merge closes exactly: closed if and only if there are stages and all are paid; for any ranks, counts and stage states |
| `FusionObras.CierreExactoBajoChisme` | crates/konstruado-core/src/acuerdo.rs:1103-1206 | The same for any list of deliveries |
| `FusionLimites.UnSoloPrecioSi` | crates/konstruado-core/src/acuerdo.rs:229-294 | For all copies with notes or a payment on one side: the two merged copies keep one price if and only if the prices are equal or the copy that decides takes the other one, case by case |
| `FusionLimites.DosPreciosEnTrato` | crates/konstruado-core/src/acuerdo.rs:189-294 | By actions: one person funds and reports finish while the other cancels and proposes at another price; the exchanged copies are both EnTrato, each with its own price, and no later delivery changes either |
| `FusionObras.CruceDejaUnSoloPrecio` | crates/konstruado-core/src/acuerdo.rs:534-540 | Two dollar copies with crossed coherent proposals use, once exchanged, the same piconero for the stage |
| `FusionObras.ProponerALaVez` | crates/konstruado-core/src/acuerdo.rs:604-635 | When both people propose to lock the same stage of one dollar job, each with its own price, exchanging copies leaves one price: that of the smaller identifier |
| `AcuerdoLocal.ObraLocal.Actuar` | crates/konstruado-core/src/acuerdo.rs:542-912 | Any action in place: only the two people can act, people, currency and published bond never change, a refusal leaves the copy as it was (but for an extra stage that overflows the price), and the books and the form of the copy are kept; closing stays exact if and only if the action does not accept a closing on a closed job |
| `AcuerdoLocal.ObraLocal.Correr` | crates/konstruado-core/src/acuerdo.rs:542-912 | A whole run of one device in place is the run of the model, and keeps the same invariants |
| `AcuerdoLocal.ObraLocal.ConfirmarContra` | crates/konstruado-core/src/acuerdo.rs:542-557 | Confirming leaves only fresh stages, and balances if and only if the confirmed terms cover the price |
| `AcuerdoLocal.ObraLocal.RechazarContra` | crates/konstruado-core/src/acuerdo.rs:559-583 | Rejecting goes back to the published bond, and balances when that bond divides the price into a 32-bit count |
| `AcuerdoLocal.ObraLocal.EncerrarProponer` | crates/konstruado-core/src/acuerdo.rs:604-635 | Only that stage changes; its piconero are the nearest to its dollars; its proposer cannot fund it; and either person can undo it by cancelling, back to the same stage but for number and price |
| `AcuerdoLocal.ObraLocal.EncerrarConfirmar` | crates/konstruado-core/src/acuerdo.rs:637-655 | Only someone else than the proposer funds, and the piconero of the stage stay as proposed |
| `AcuerdoLocal.ObraLocal.EncerrarCancelar` | crates/konstruado-core/src/acuerdo.rs:657-670 | Afterwards a new proposal is accepted from exactly the two people, on dollar jobs at exactly the coherent prices of the stage |
| `AcuerdoLocal.ObraLocal.AvisarTermino` | crates/konstruado-core/src/acuerdo.rs:672-702 | One note more, of that author, and from then on only the other person can move the stage |
| `AcuerdoLocal.ObraLocal.ContraPago` | crates/konstruado-core/src/acuerdo.rs:704-737 | One note more, of that author, and from then on only the other person can move the stage |
| `AcuerdoLocal.ObraLocal.AceptarPago` | crates/konstruado-core/src/acuerdo.rs:739-768 | What is paid is what waited, by whom it waited for; nobody can move the stage any more; and the job closes exactly with the last stage |
| `AcuerdoLocal.ObraLocal.EditarDetalle` | crates/konstruado-core/src/acuerdo.rs:770-790 | One text of a pending stage changes and nothing else, and a text that is not empty reaches every pending copy it is delivered to |
| `AcuerdoLocal.ObraLocal.ProponerExtra` | crates/konstruado-core/src/acuerdo.rs:799-826 | Only the other person can answer it, and refused it leaves the job as it was but for a number |
| `AcuerdoLocal.ObraLocal.AceptarExtra` | crates/konstruado-core/src/acuerdo.rs:828-846 | Accepted by someone else than its proposer; what the stages hold grows by exactly the amount, like the price |
| `AcuerdoLocal.ObraLocal.RechazarExtra` | crates/konstruado-core/src/acuerdo.rs:848-859 | Refused by someone else than its proposer; nothing but the extra and its number changes, and exactly the two people can propose the next one |
| `AcuerdoLocal.ObraLocal.Abandonar` | crates/konstruado-core/src/acuerdo.rs:861-885 | Without risk the job ends; with risk only the other person can end it, and refused the job is as it was but for a number |
| `AcuerdoLocal.ObraLocal.AceptarCierre` | crates/konstruado-core/src/acuerdo.rs:887-900 | Accepted by someone else than who asked; no stage changes, and from then on nobody can edit, extend, lock or end the job |
| `AcuerdoLocal.ObraLocal.RechazarCierre` | crates/konstruado-core/src/acuerdo.rs:902-912 | Refused by someone else than who asked; neither stages nor state change, and either person can ask again while the job is open |
| `CorridaDinero.TodaCopiaCuadra` | crates/konstruado-core/src/acuerdo.rs:1103-1206 | In every reachable world, every copy on a device or in flight with the stages and the bond of the deal has its price, and holds exactly that |
| `CorridaDinero.DesdeOfertaCuadra` | crates/konstruado-core/src/acuerdo.rs:487-525 | A deal made from an accepted offer meets what that needs, when its count fits 32 bits |
| `FusionDinero.FusionCuadraSi` | crates/konstruado-core/src/acuerdo.rs:1103-1151 | Two balanced copies with one bond, whose common stages have amounts of their own at the same places and whose further ones are as actions make them, merge into a balanced one if and only if the merge does not take count and price from the other, or their common stages hold the same |
| `FusionDinero.FusionCuadraMismaCuenta` | crates/konstruado-core/src/acuerdo.rs:1112-1142 | With equal counts: if and only if the other copy is not further along, or the prices are equal |
| `FusionDinero.DosExtrasDescuadran` | crates/konstruado-core/src/acuerdo.rs:1112-1125 | By actions: the principal accepts an extra stage and proposes another; the contractor, who already proposed a lock, accepts that one; both copies balance, and the merge balances if and only if the two amounts are equal |
| `Dinero.ElPrecioSeConserva` | crates/konstruado-core/src/acuerdo.rs:181-187 | From an accepted offer on, after every run of actions on one device, the number of stages is the counted one and the price of the job is exactly the sum of what its stages hold |
| `Dinero.AccionCuadra` | crates/konstruado-core/src/acuerdo.rs:542-885 | Each action, done or refused, at any time, keeps those books |
| `Dinero.ConfirmarCuadraSi` | crates/konstruado-core/src/acuerdo.rs:542-557 | Whatever happened before: confirming a counter offer keeps the books if and only if the offer covers the price of the job |
| `Dinero.SinGuardaNoCuadra` | crates/konstruado-core/src/acuerdo.rs:542-557 | A concrete run in which it does not: a lock and an extra stage before a late confirmation |
| `Dinero.ProponerSinGuarda` | crates/konstruado-core/src/acuerdo.rs:604-635 | An unguarded lock proposal takes the job back in rank if and only if it was abandoned or closed, and afterwards a counter offer that waited can no longer be answered |
| `Dinero.RechazarSinGuarda` | crates/konstruado-core/src/acuerdo.rs:559-583 | An unguarded rejection: if the bond divides the price no lock or note is left, and the books balance if and only if the count fits 32 bits; if it does not the stages stay, and the books are as they were |
| `Dinero.AceptarExtraSinGuarda` | crates/konstruado-core/src/acuerdo.rs:828-846 | An unguarded extra stage keeps the count if and only if 32 bits have room |
| `Dinero.NuevaObraCuadra` | crates/konstruado-core/src/acuerdo.rs:487-525 | A new job balances if and only if its stage count fits 32 bits |
| `Cuotas.NPartidasCubreElTrabajo` | crates/konstruado-core/src/partida.rs:12-23 | The count is given if and only if the price is a positive number of bonds, and covers the price if and only if that number fits 32 bits |
| `Cuotas.AjustarDosVecesSi` | crates/konstruado-core/src/partida.rs:44-48 | Fitting the stage texts again changes nothing if and only if no text was cut after a space |
| `Texto.LimpiarDosVecesSi` | crates/konstruado-core/src/partida.rs:50-57 | The same for one text: cleaning is idempotent except where the limit cuts after a space |
| `Texto.NotaDosVeces` | crates/konstruado-core/src/partida.rs:69-76 | An accepted note is accepted again as it is |
| `Cuotas.MontoPctReparte` | crates/konstruado-core/src/partida.rs:86-89 | Below 2^64 / 100 a share never exceeds the whole, all of it is the whole, and a share and its complement miss at most one |
| `Botones.TrabaExacta` | crates/konstruado-motor/src/caja.rs:1197-1214 | A funded stage is blocked exactly while its block is unknown or fewer than ten deep; the missing blocks are counted right; a freed stage stays free as the tip grows |
| `Botones.AccionesPartida` | crates/konstruado-motor/src/caja.rs:1262-1356 | The flags set one by one are exactly the button rule |
| `Botones.BotonesDelEncierre` | crates/konstruado-motor/src/caja.rs:1291-1330 | On a well-formed job every lit locking button is an action the job accepts, proposing with the price the client builds; edit, propose and confirm are lit exactly when accepted |
| `Botones.BotonesDelPago` | crates/konstruado-motor/src/caja.rs:1331-1353 | Finish, accept and counter are lit exactly when the job accepts them and nothing is being paid (and the funding is free) |
| `Botones.UnLadoPorVez` | crates/konstruado-motor/src/caja.rs:1262-1356 | On one copy the two sides never both hold a move, exactly one is told it is its turn, and a blocked stage lets nobody finish or accept |
| `CorridaBotones.SiempreBienFormada` | crates/konstruado-motor/src/caja.rs:1257-1356 | Every copy, of base and extra stages, on a device or in flight, that a run can reach is well formed, so the button rule is sound in every reachable world |
| `CorridaBotones.BotonesEnTodaCorrida` | crates/konstruado-motor/src/caja.rs:1262-1356 | Whatever happened before, each lit button on someone's device (proposing a lock with the price the client builds, cancelling, funding, editing, finishing, countering, accepting) is an action the run allows and that person's copy accepts |
| `CorridaBotones.UnSoloEquipoMueve` | crates/konstruado-motor/src/caja.rs:1331-1353 | Across the two devices, with whatever copies and notices each has, never do both show a move for the same base stage, and neither does once any copy anywhere is paid |
| `RestauracionLocal.DataDir.Restaurar` | crates/konstruado-motor/src/respaldo.rs:206-304 | Preparing and then any plan of starts, each cut or failing anywhere, and of writes by an application that runs on: if a start reports success the live set is the one that was put in waiting if and only if no write behind the restore left something else, and that one is the set of the backup if and only if nothing else stayed in the staging folder; with cuts only, every replaced entry is whole in exactly one new previo folder and nothing else moved; if preparing did not finish and nothing was waiting, the live set is the old one; no rename ever overwrites |
| `RestauracionLocal.DataDir.Vivir` | crates/konstruado-motor/src/respaldo.rs:260-304 | Any plan of starts and writes on any folder leaves a trace of progress, and a start with enough steps reports success |
| `RestauracionLocal.DataDir.AplicarPendiente` | crates/konstruado-motor/src/respaldo.rs:260-304 | One start on a folder in any state: wherever it stops it made progress and the next can go on; success means that nothing is left to do; given enough steps it succeeds; with nothing waiting only the staging folder is cleared |
| `RestauracionLocal.DataDir.Preparar` | crates/konstruado-motor/src/respaldo.rs:206-255 | Nothing in use changes until the last rename; after it the whole new set is waiting, over whatever an earlier preparation left in the staging folder and could not be removed; a restore that waited before is deleted entry by entry just before, and nothing else |
| `RestauracionLocal.DataDir.ReemplazarCortado` | crates/konstruado-motor/src/respaldo.rs:247-253 | Replacing a waiting restore, cut after one deletion: the next start reports success on what is left, a strictly smaller set unless the marker went first |
| `RestauracionTraza.RoidaValeSi` | crates/konstruado-motor/src/respaldo.rs:247-253 | After any part of a waiting restore was deleted, the next start still leaves the same live set: with the marker if and only if nothing was deleted, without it if and only if nothing live is outside the set and the deleted entries are live already |
| `RestauracionTraza.RestauradaSi` | crates/konstruado-motor/src/respaldo.rs:286-303 | Over any trace of starts and writes that ended: the live set is the restored one with the stray writes on top, so it is the restored one if and only if under each name the last stray write left what the set has |
| `RestauracionTraza.EscritoValeSi` | crates/konstruado-motor/src/respaldo.rs:297-301 | One write between starts leaves the outcome as it was if and only if the name is still to be replaced, or it writes what was there |
| `RestauracionTraza.NadaSePierde` | crates/konstruado-motor/src/respaldo.rs:276-285 | In any trace each start leaves a live entry alone or moves it whole into exactly one new previo folder, which is still there unchanged at the end |
| `RestauracionTraza.AvanceTransitivo` | crates/konstruado-motor/src/respaldo.rs:260-304 | Starts in a row, cut anywhere, are as one start |
| `RestauracionLocal.DataDir.FaseB` | crates/konstruado-motor/src/respaldo.rs:292-303 | Every restored entry is moved in, over what was written meanwhile, which is moved away first; the empty folder goes last; resumable at every step |
| `RestauracionLocal.DataDir.MoverAPrevio` | crates/konstruado-motor/src/respaldo.rs:276-285 | Moving one entry away creates the destination only at first need and never overwrites, in either phase |
| `RestauracionLocal.DataDir.FaseA` | crates/konstruado-motor/src/respaldo.rs:286-291 | Every live entry that is there is moved away, in place, and only then the marker goes |
| `RestauracionLocal.DataDir.NombreLibre` | crates/konstruado-motor/src/respaldo.rs:266-275 | The search for a fresh folder name ends, at a free name of the family |
| `RestauracionLocal.CandidatosDistintos` | crates/konstruado-motor/src/respaldo.rs:266-275 | The names tried are all different |
| `Tablero.Almacen.MergeOfertas` | crates/konstruado-net/src/dht.rs:1287-1306 | In place, the board takes better copies and new offers, and drops the withdrawn ones |
| `Tablero.Almacen.MergeRetiradas` | crates/konstruado-net/src/dht.rs:1307-1331 | In place, the tombstones are joined, sorted, cut to 512 and applied to the board |
| `Tablero.Almacen.Visibles` | crates/konstruado-net/src/dht.rs:627-635 | What is shown is exactly the offers of the board that no stored tombstone kills, and the whole board when none is killed |
| `TableroConverge.LaVistaEsElTablero` | crates/konstruado-net/src/dht.rs:627-635 | After any deliveries the stored board is already what is shown |
| `TableroConverge.LoQueSaleRetira` | crates/konstruado-core/src/retiro.rs:99-126 | A withdrawal that goes out removes the offer, with every copy of it, from every store that gets it; one that was refused for its proof would have left the offer in sight |
| `TableroConverge.TableroExacto` | crates/konstruado-net/src/dht.rs:1287-1331 | After any order, batching and repetition of deliveries the visible offers are exactly the best delivered copies that no delivered tombstone kills, each once |
| `TableroConverge.MismasEntregasMismaVista` | crates/konstruado-net/src/dht.rs:1287-1331 | Two stores that were delivered the same offers and tombstones show the same offers |
| `TableroConverge.LaRetiradaNoVuelve` | crates/konstruado-core/src/retiro.rs:75-134 | An offer withdrawn by its secret never shows again, however often and late anyone announces it |
| `Lapidas.SiempreLasUltimas` | crates/konstruado-net/src/dht.rs:1307-1322 | With distinct dates the store always holds exactly the 512 newest tombstones ever delivered, newest first |
| `Lapidas.SiempreDeLasUltimas` | crates/konstruado-net/src/dht.rs:1307-1322 | Whatever the dates: the store holds as many newest tombstones as fit, and lacks none that is newer than one it has |
| `Lapidas.DosOrdenesIgualesSi` | crates/konstruado-net/src/dht.rs:1319-1322 | The order of two deliveries does not matter if and only if their dates differ and their keys do (or they are the same) |
| `Lapidas.UltimasUnicas` | crates/konstruado-net/src/dht.rs:1307-1322 | That list is a function of the set that was delivered |
| `Lapidas.MismasLapidas` | crates/konstruado-net/src/dht.rs:1307-1322 | Two stores that were delivered the same tombstones hold the same list |
| `Tablero.OrdenarOrdena` | crates/konstruado-net/src/dht.rs:1320 | The sort is a permutation in descending date |
| `Billetera.LibroLocal.FundirEntradas` | crates/konstruado-motor/src/caja.rs:3724-3750 | In place, exactly the batch without spent, empty and already known outputs |
| `Billetera.LibroLocal.MarcarGastadas` | crates/konstruado-motor/src/caja.rs:5624-5632 | In place, the marks are added once and the marked outputs leave |
| `Billetera.LibroLocal.VistaBilletera` | crates/konstruado-motor/src/caja.rs:4464-4493 | The loop gives the saturated sums of all and of the free outputs |
| `Billetera.ElLibroEsUnConjunto` | crates/konstruado-motor/src/caja.rs:3724-3750 | After any sequence of batches, marks and reloads the ledger is the delivered outputs minus the marked ones, each once |
| `Billetera.MismoSaldo` | crates/konstruado-motor/src/caja.rs:4464-4493 | Two wallets that saw the same outputs and marks, in whatever order and overlap, hold the same set and the same sum |
| `Billetera.LibreMasTrabadoEsTotal` | crates/konstruado-motor/src/caja.rs:4464-4493 | Free plus locked is always the total shown; without saturation locked is the sum of the locked outputs |
| `Billetera.RecargaNoCambia` | crates/konstruado-motor/src/caja.rs:4506-4591 | Saving and loading changes no ledger that a run can reach |
| `CajaLibro.LibroCaja.TomarTrozo` | crates/konstruado-motor/src/caja.rs:3666-3701 | In place: the blocks read grow by the chunk, and if it continues them the interval is again exactly the blocks read |
| `CajaLibro.LibroCaja.PedirAtras` | crates/konstruado-motor/src/caja.rs:4906-4925 | In place: one request asks for at most 200 blocks, never passes the cap of 20,000, and is refused exactly there or at block zero |
| `CajaLibro.LibroCaja.Recorrer` | crates/konstruado-motor/src/caja.rs:3666-3701 | Chunk after chunk on the mutable ledger: it ends at the tip, covered if and only if what was asked exists, with the interval exactly the blocks read |
| `CajaLibro.NuncaPasaElTope` | crates/konstruado-motor/src/caja.rs:5961-5971 | At a given tip no run of chunks, failures and requests ever reaches deeper than 20,000 blocks |
| `CajaLibro.LoMiradoEsUnIntervalo` | crates/konstruado-motor/src/caja.rs:3666-3701 | With any tips, failures and requests in between, the blocks read are exactly the ledger's interval, and each chunk in flight after the first is at most eight new blocks next to it |
| `CajaLibro.RecorridaLlega` | crates/konstruado-motor/src/caja.rs:5935-5958 | At a fixed tip the walk ends at the tip with its start lowered by what was asked, covered if and only if that many blocks exist |
| `CajaLibro.PrimeraRecorrida` | crates/konstruado-motor/src/caja.rs:5935-5958 | The same from the first look, which goes forty blocks back |
| `CajaLibro.PedirNoPasaElTope` | crates/konstruado-motor/src/caja.rs:5961-5971 | A request never takes the depth over 20,000 blocks, and is refused exactly at that cap or at block zero |
| `CajaLibro.MirarNoAhonda` | crates/konstruado-motor/src/caja.rs:5935-5971 | Reading what was asked does not deepen the request |
| `Cobertura.VeredictoYSeleccionCoinciden` | crates/konstruado-motor/src/caja.rs:5059-5089 | For every box ledger and tip the verdict is Libre if and only if two outputs are selected, and those have the amount and are free |
| `Cobertura.OrdenarConmuta` | crates/konstruado-motor/src/caja.rs:5991-6014 | Sorting outputs by (height, index) and reading heights is sorting heights |
| `Reparto.SplitBase` | crates/xmr-joint/src/spend.rs:66-97 | On any inputs, also where products wrap: it succeeds if and only if the pot is exactly two capitals, the percentage at most 100 and the fee less than the pot, and then it shares the pot to the last piconero |
| `Reparto.SplitPotLegacy` | crates/xmr-joint/src/spend.rs:47-64 | On any inputs: it succeeds if and only if the current one does and two piconero are left, shares the whole pot, and leaves no side with nothing |
| `Reparto.RepartoSaleSi` | crates/xmr-joint/src/spend.rs:66-97 | The same of the split as a function, and neither "no alcanza" nor "no cierra" happens while two capitals fit 64 bits |
| `Reparto.DelPrecioAlPago` | crates/konstruado-core/src/precio.rs:62-72 | On a coherently priced stage, with any fee below the pot, the contractor gains exactly the agreed percentage of the nearest piconero of the dollars, less what of the fee the principal's rest cannot pay |
| `Reparto.RepartoExacto` | crates/xmr-joint/src/spend.rs:66-97 | For every capital below 2^64 / 100: the split succeeds exactly when the fee is below the pot, it shares the whole pot, and each side gets its exact part |
| `Reparto.RepartoMonotono` | crates/xmr-joint/src/spend.rs:66-97 | A higher percentage never pays the contractor less nor the principal more |
| `Reparto.RepartoViejoDifiereEnUno` | crates/xmr-joint/src/spend.rs:47-63 | The old split fails exactly when the fee leaves one piconero; otherwise it differs by at most one and keeps the pot |
| `Precio.UsdAPiconeroEsElMasCercano` | crates/konstruado-core/src/precio.rs:76-85 | The conversion is the half-up nearest integer, with no overflow, and fails exactly when that is zero or too wide |
| `Precio.UsdAPiconeroMonotono` | crates/konstruado-core/src/precio.rs:76-85 | A dearer coin never buys more and more dollars never buy less |
| `Eleccion.ElegirMontos` | crates/xmr-joint/src/personal.rs:83-109 | The choice is the shortest run of the smallest outputs that covers the amount, at most eight; otherwise the error carries what the eight smallest add up to |
| `Eleccion.LasMasChicas` | crates/xmr-joint/src/personal.rs:83-109 | No output is chosen twice or empty, and every output left out is at least as big as each chosen one |
| `Eleccion.HayEleccionSi` | crates/xmr-joint/src/personal.rs:83-109 | A choice exists if and only if the eight smallest outputs cover the amount |
| `Eleccion.OchoMigasTapanLaGrande` | crates/xmr-joint/src/personal.rs:83-109 | Eight crumbs hide any bigger output that would cover the amount alone |
| `TextoDinero.FmtXmr` | crates/konstruado-motor/src/caja.rs:60-68 | The trimming loop prints the amount with at least four decimals |
| `TextoDinero.PiconeroDe` | crates/xmr-joint/src/personal.rs:41-80 | An amount is read if and only if the trimmed text, with points for commas, writes it in decimal: at most seven digits, a point and at most twelve digits, with that value in 64 bits |
| `TextoDinero.SumarPartes` | crates/xmr-joint/src/personal.rs:52-80 | The padding loop fills the fraction to twelve digits and sums the parts with the 64-bit check |
| `TextoDinero.XmrIdaYVuelta` | crates/xmr-joint/src/personal.rs:41-80 | A printed amount reads back exactly if and only if it is below ten million XMR |
| `TextoDinero.FmtUsd` | crates/konstruado-core/src/precio.rs:104-124 | The reversed loop groups the digits in threes from the right |
| `TextoDinero.UsdIdaYVuelta` | crates/konstruado-core/src/precio.rs:127-152 | Every 64-bit amount of cents printed in either language reads back |
| `TextoDinero.EditableIdaYVuelta` | crates/konstruado-core/src/precio.rs:155-161 | The same for the text of an edit field |
| `Http.CuerpoHttp` | crates/konstruado-motor/src/cotizacion.rs:508-547 | On any bytes it ends and reads in range, and of every 200 answer that carries a text, whole or in any chunks, it gives exactly that text |
| `Http.JuntarTrozos` | crates/konstruado-motor/src/cotizacion.rs:521-542 | The chunk loop computes the decoded body of section 7.1 of RFC 9112, as written in the code |
| `Http.TextoEnTrozos` | crates/konstruado-motor/src/cotizacion.rs:508-547 | Every 200 answer whose UTF-8 text is sent in any non-empty chunks, cut even inside a character, gives back that text |
| `Http.TextoEntero` | crates/konstruado-motor/src/cotizacion.rs:519-547 | The same when it is sent whole |
| `Http.SeAceptaSi` | crates/konstruado-motor/src/cotizacion.rs:521-542 | A chunked body is accepted if and only if it is a complete coding, or one cut just before the two bytes that close a chunk; and what it gives |
| `Http.CortadaPasaPorEntera` | crates/konstruado-motor/src/cotizacion.rs:535-540 | A concrete stream of the second kind, which is not complete |
| `Http.CodigoDoscientos` | crates/konstruado-motor/src/cotizacion.rs:513-518 | A status line with 200 is read as such in any version, with any reason |
| `Utf8.BytesIdaYVuelta` | crates/konstruado-motor/src/cotizacion.rs:513-547 | Every text reads back from its UTF-8 bytes, strictly and tolerantly |

## Left out

- Cryptography (key generation, joint signing, sealed boxes, password hashing), Tor, sockets, sessions, the daemon's calls, the interfaces and their texts, exports and icons.
- Serialisation: saving and loading is the identity on the modelled fields, except for the filter on loading a wallet (`Billetera.RecargaNoCambia`).
- CorridaSegura.NegociacionSegura: speaks of the stages of the original deal; extra stages can be lost or replaced (`SeAcortaSi`, `LaExtraAceptadaSePierde`), so they have no single history.
- CorridaSegura.PagosDeAcuerdo: is about payment, receipt and notes; on the price of a stage two copies may differ (`UnSoloPrecioSi`, `DosPreciosEnTrato`).
- CorridaSegura.UnoSoloJuega: a device that acts on a rendered copy older than its stored one, restoring an old backup in the middle of a run, and reopening a rejected deal under the same identifier are outside the runs.
- Corrida: the store of jobs on the network keeps and merges copies like a relay; its own code path and archiving are not modelled.
- Corrida: two contractors who accept the same offer make two jobs with one identifier and different contractors; runs are of one deal, so copies of the other one never reach them.
- Dinero.ElPrecioSeConserva: is about one device's copy and assumes that the original and the suggested bond give a count of stages that fits 32 bits; every copy of every world is in `CorridaDinero.TodaCopiaCuadra`.
- CorridaDinero.TodaCopiaCuadra: copies with accepted extra stages or a rejected counter offer are not in it; two copies may have accepted different extras (`FusionCuadraSi`, `DosExtrasDescuadran`).
- FusionPartida.PropuestasCruzadasConvergen: requires a price in every crossed copy and one proposal per person and number; without a price two copies converge exactly as `PreciosCruzadosConmutanSi` says.
- Acciones: runs assume the guards of `Permitida`, one of which, the width of the count, is nobody's; that a button is only lit on an open job is stated with the buttons.
- Botones.BotonesDelEncierre: assumes a well-formed job; `CorridaBotones.SiempreBienFormada` shows that runs reach no other.
- Botones: texts, colours and the summary of the current activity are reduced to what the rule reads.
- RestauracionLocal.DataDir.Vivir: writes between starts are of live entries; other files that the application may make in the folder are not in the plan.
- RestauracionLocal.DataDir.Preparar: the entries of the staging folder are whole: one that stays and is written over is replaced, so what a folder that stays keeps inside is not followed.
- Tablero: publishing an offer of one's own replaces it locally; only merging is modelled.
- TableroConverge.MismasEntregasMismaVista: assumes that copies of one offer agree on the author and on any non-empty commitment, and at most 512 tombstones in all.
- Lapidas.SiempreLasUltimas: requires distinct dates and one tombstone per key; for pairs exactly that is needed (`DosOrdenesIgualesSi`), and with equal dates `SiempreDeLasUltimas` holds.
- Billetera.LibroLocal.VistaBilletera: the list of the last six movements and the notices.
- CajaLibro: the personal scan shares the chunk rule but not its update: an empty one-block scan does not move its end, so the walk is proved for the box only.
- CajaLibro.LibroCaja.PedirAtras: does not model resetting pending notices.
- Precio: quotes from the market (floating point), their age, cache and sources.
- Eleccion.ElegirMontos: does not model building or signing the payment with the chosen outputs.
- Http: reading the answer of each price source.
