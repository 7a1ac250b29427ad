# Verified model of the Kernel Memory allocator and the Kernel Scheduler

The system is a distributed operating-system simulator. Three of its processes are modelled here.

**Kernel Memory** owns the user memory. Memory Sticks connect one after another and form one
global byte space; an unordered hole list that never merges neighbours says what is free; each
process has a table of segments; a swap area stores suspended processes in fixed-size blocks.
Segments are created by best or worst fit, deleted, slid together by compaction, copied to swap
and back, and freed when a process ends.

**The CPU** translates logical addresses with a copy of the segment table and reaches the sticks
through a table of its own, which may be partial and out of date.

**The Kernel Scheduler** moves processes between state lists, multilevel ready queues, I/O queues
and FIFO mutexes with priority inheritance, suspends long waiters, and pauses planning while
Kernel Memory compacts.

## What is proved

For memory, one object (`KernelMemory`, over `ListaHuecos`, `MemoriaFisica` and `AreaSwap`) keeps
two equations between multisets: holes plus resident segments cover every address below the total
exactly once, and the blocks marked used are exactly the blocks named by the suspended processes,
each once. On top of that:

* whatever sticks, swap and CPUs answer, every sequence of requests is a run of an abstract machine
  in which each process privately owns a list of `(id, bytes)` segments and nothing else exists
  (`Corridas.Ejecutar`).  The machine has three failures, each confined to the process named: a
  refused read, a write refused half way, and a return from swap with blocks unread.  Only an
  aborted compaction, after which the program itself goes on with stale holes, ends a run;
* in that machine, over any run, requests on other processes change nothing, failed or not; a
  suspended process brought back while all answers has the same ids, limits and contents; and what
  was written is what is read;
* compaction is invisible, keeps address order, leaves one hole, and after it a request that was
  refused only for lack of contiguous space succeeds, exactly when it is not empty or some byte is free;
* suspension is all or nothing whatever request fails; de-suspension that does not fit gives back
  the same free bytes;
* reads and writes split over any list of sticks are reads and writes of one flat array, and the
  CPU's decoder, however stale, never sends an address elsewhere than Kernel Memory does: in those
  runs each access is carried out by any of several CPUs, each with a table of its own age;
* an access reaches the first segment whose id is the quotient of its address by the maximum size,
  at the remainder, wherever that segment is; it stays in the process's own segment if and only if
  its limit check does not wrap;
* while nothing is allocated the sticks are one hole, whatever their number.

For the scheduler, each handler is one step on a state value and the class `KernelScheduler`
carries the steps out with the program's own loops; one inductive invariant holds in every
reachable state:

* a live process is exactly once in the list of its state and in no other; a blocked one is pending
  in exactly one place;
* the semaphores count the queued processes and the free CPUs, and every connected CPU is free, or
  runs one process, or is kept for the process waiting for a compaction;
* grants of a mutex follow its requests in order, with no overtaking, even when owners die;
* each dispatch takes the head of the best non-empty queue and none happens during a compaction;
  within a queue it is first come, first served, over any run, except for processes a CPU gives back
  during a compaction, which go ahead; free CPUs and I/O requests are served in order too;
* an owner keeps its mutex until someone unlocks it or it ends;
* a blocked process always has its suspension timer armed, and suspended ones come back in order of
  priority and suspension time;
* in every run no priority is worse than the original; with owner-only unlocking whoever owns nothing
  has its original priority; and inheritance is exact as long as no lock cuts a chain. For the two
  properties that the code does not keep unconditionally the exact condition is proved, in both
  directions (`UnlockAjeno`, `LockExactaSii`), and a run from the empty system that breaks each
  (`PrioridadNoDevuelta`, `HerenciaInexacta`);
* a process whose I/O a device answers with an error is never woken; any other blocked process waits
  for an I/O, a mutex or the compaction.

## Files

| file | content |
|---|---|
| `Tipos.dfy` | machine integers, lists keyed by pid, sequence and multiset algebra |
| `Rangos.dfy`, `Huecos.dfy` | addresses covered by lists of ranges; the hole list |
| `MemorySticks.dfy`, `MemoriaCpu.dfy`, `Mmu.dfy` | the sticks, the CPU's decoder, address translation |
| `Swap.dfy` | the swap bitmap, block copies, ownership of blocks |
| `Vistas.dfy`, `MaquinaAbstracta.dfy`, `Direcciones.dfy` | what a process sees; the abstract machine and its runs; what a logical address names |
| `Compactacion.dfy`, `Tesela.dfy`, `Restauracion.dfy`, `Efectos.dfy` | what each request does to the tiling, the swap blocks and the views |
| `MemoriaUsuario.dfy`, `Accesos.dfy`, `Corridas.dfy` | Kernel Memory as an object; accesses by a CPU; whole runs |
| `Listas.dfy`, `Planificacion.dfy`, `Sistemas.dfy`, `Pasos.dfy` | scheduler lists, state, invariant and steps |
| `Invariantes.dfy`, `Prioridades.dfy`, `Herencia.dfy` | the steps keep the invariant; restoration and inheritance |
| `Ejecuciones.dfy`, `Equidad.dfy`, `Ejemplos.dfy` | whole runs of the scheduler, what they guarantee, and two that break a property |
| `Formas.dfy`, `Planificador.dfy` | the steps field by field; the scheduler as an object |
| `Turnos.dfy`, `Relojes.dfy`, `Rondas.dfy`, `Exclusion.dfy` | order in every queue; timers; rounds of de-suspension; ownership of mutexes |

## Conventions

* Names are in Spanish, as in the program. A pid, a CPU socket or a position stands for the pointer
  the program keeps.
* `sano` is an input of every operation that talks to a stick, to the swap module or to the C
  allocator: the environment's promise that during this call every request is answered. Without it
  any request may be refused, and a refused write may leave anything in the bytes it was about.
* `ahora`, `respuestas`, `orden` and the I/O outcome are inputs (or named outcomes) of the scheduler's
  steps: the clock, Kernel Memory's answers, the result of a sort, the device's answer.
* Some definitions are folded, to keep the verifier from opening them where only the name matters: a
  function such as `InvSalvo` promises its meaning (`InvAbierto`) under the trigger `Desplegar(z)`, and
  a lemma that looks inside starts with `assert Desplegar(0);`. `Punto(k)` does the same for facts about
  one position of a sequence. Both predicates are true everywhere, so folding does not change what a
  statement means: `TrasEsSiguiente` says so for the scheduler's steps. `Tipos.dfy` explains both.

## Model

| member | source | states |
|---|---|---|
| Huecos.ListaHuecos.Extender | kernel_memory/src/huecos.c:11-26 | when the last hole ends where the new memory begins it grows by it and no other hole changes; otherwise the new memory is a hole of its own after all the others |
| Huecos.ExtenderAgrega | kernel_memory/src/huecos.c:11-26 | in both cases the new addresses, and only those, become free |
| Huecos.ListaHuecos.MejorAjuste | kernel_memory/src/huecos.c:29-40 | the first of the smallest holes that are large enough; none exactly when every hole is too small |
| Huecos.ListaHuecos.PeorAjuste | kernel_memory/src/huecos.c:43-54 | the first of the largest holes, if large enough; none exactly when every hole is too small |
| Huecos.ListaHuecos.Ocupar | kernel_memory/src/huecos.c:57-72 | a hole used whole leaves the list; otherwise the rest of it stays in its place; the other holes keep theirs |
| Huecos.OcuparSepara | kernel_memory/src/huecos.c:57-72 | the free addresses of before are those of after plus the bytes taken: nothing lost, nothing free twice |
| Huecos.ListaHuecos.Liberar | kernel_memory/src/huecos.c:75-80 | freed space is appended as its own hole, without merging |
| Huecos.LiberarAgrega | kernel_memory/src/huecos.c:75-80 | exactly the freed addresses are added to the free ones |
| Huecos.ListaHuecos.TotalLibre | kernel_memory/src/huecos.c:133-140 | the sum of all holes, without wrap-around while they fit 32 bits |
| Huecos.ListaHuecos.Reconstruir | kernel_memory/src/huecos.c:143-151 | one hole from the free base to the total, or none when nothing is left |
| Huecos.ReconstruirCubre | kernel_memory/src/huecos.c:143-151 | the rebuilt list covers exactly the addresses from the free base to the total |
| Rangos.Conservacion | kernel_memory/src/huecos.c:133-140 | when holes and segments tile the memory, the free total plus all resident limits is the memory total, however fragmented |
| Rangos.SegmentosDisjuntos | kernel_memory/src/memoria_usuario.c:160-168 | under the tiling no two non-empty segments of any processes overlap |
| Rangos.SegmentoEnMemoria | kernel_memory/src/memoria_usuario.c:160-168 | under the tiling every non-empty segment lies below the memory total |
| Tipos.SacarDeja | kernel_memory/src/memoria_usuario.c:181-191 | what is removed from a list leaves the elements before it in place and moves those after it up one |
| MemorySticks.MemoriaFisica.Agregar | kernel_memory/src/memory_stick.c:21-33 | the stick is appended after all others; its bytes extend the flat memory; its range becomes free |
| MemorySticks.MemoriaFisica.Localizar | kernel_memory/src/memory_stick.c:46-57 | the stick and offset that hold the address; none exactly when the address is past the end; empty sticks are stepped over |
| MemorySticks.AlojaUnica | kernel_memory/src/memory_stick.c:46-57 | an address has one home, even with empty sticks in the list |
| MemorySticks.Hogar | kernel_memory/src/memory_stick.c:46-57 | every address below the total has a home |
| MemorySticks.MemoriaFisica.Leer | kernel_memory/src/memory_stick.c:78-114 | a read split over sticks is the read of the flat range; if all sticks answer it succeeds exactly when the range is in memory |
| MemorySticks.MemoriaFisica.Escribir | kernel_memory/src/memory_stick.c:115-148 | a write split over sticks is the write of the flat range; a refused one never touches a byte outside it |
| MemorySticks.EscribirEnStick | kernel_memory/src/memory_stick.c:130-145 | writing inside one stick is writing the same stretch of the flat memory |
| MemorySticks.LeerTramo | kernel_memory/src/memory_stick.c:94-111 | reading inside one stick is reading the same stretch of the flat memory |
| MemoriaCpu.CpuMemoria.ActualizarMemorySticks | cpu/src/memoria.c:139-271 | the new table holds the sticks that accept a connection, all of them and only those, also after one that does not, with bases that agree with Kernel Memory's; a broken answer keeps the old table |
| MemoriaCpu.CpuMemoria.BuscarStickPorDireccion | cpu/src/memoria.c:273-291 | an address found is placed where Kernel Memory places it; not found exactly when no entry covers it |
| MemoriaCpu.CpuMemoria.BuscarORefrescarStick | cpu/src/memoria.c:293-309 | one refresh and one retry find every address in memory when everything answers; an address past the end is never found |
| MemoriaCpu.CoherenteDespues | cpu/src/memoria.c:221-226 | a table stays right when sticks are added later or rewritten |
| MemoriaCpu.MismaUbicacion | cpu/src/memoria.c:273-291 | an entry of a table built against an earlier list, and Kernel Memory now, place the address in the same stick and offset, and nowhere else |
| MemoriaCpu.TablaCompleta | cpu/src/memoria.c:157-260 | with every stick connected the table covers an address if and only if it is in memory |
| MemoriaCpu.CpuMemoria.LeerMemoria | cpu/src/memoria.c:311-387 | the CPU's split read is the flat read, from any stale or partial table |
| MemoriaCpu.CpuMemoria.EscribirMemoria | cpu/src/memoria.c:389-465 | the CPU's split write is the flat write, and stays inside the range when refused |
| Mmu.BuscarSegmentoPorId | cpu/src/mmu.c:23-33 | the first segment with that id, not the segment in that position |
| Mmu.LimiteExacto | cpu/src/mmu.c:72-85 | an accepted access stays inside its segment if and only if offset plus size does not wrap |
| Mmu.LimiteEnvuelve | cpu/src/mmu.c:72-85 | a concrete accepted access that leaves its segment because the sum wraps |
| Mmu.Aislamiento | cpu/src/mmu.c:35-99 | every byte reached belongs to one own segment, is not free, and is in no other segment of any process |
| Mmu.TraduccionInyectiva | cpu/src/mmu.c:35-99 | two processes, or two logical addresses of one, never reach the same physical byte |
| Direcciones.DireccionNombra | cpu/src/mmu.c:46-83 | address id * maximum + d reaches offset d of segment k exactly when k is the first of the table with that id and the access ends within its limit; its physical address is base + d |
| Direcciones.ResolverNombra | cpu/src/mmu.c:46-83 | the same for a process's ids and bytes, for every address, negative ids included |
| Direcciones.LecturaDice | cpu/src/mmu.c:46-83 | a read answers the bytes of the segment that its address names, and nothing when it names none or passes its limit |
| Direcciones.EscrituraDice | cpu/src/mmu.c:46-83 | a write changes the segment that its address names and nothing else |
| Swap.AreaSwap.Registrar | kernel_memory/src/memoria_usuario.c:48-56 | geometry stored, bitmap of size/block-size blocks, all free |
| Swap.AreaSwap.Desregistrar | kernel_memory/src/memoria_usuario.c:58-62 | only the connection is forgotten |
| Swap.AreaSwap.BloquesLibres | kernel_memory/src/memoria_usuario.c:65-71 | the number of unmarked blocks |
| Swap.AreaSwap.EscribirBloque | kernel_memory/src/memoria_usuario.c:82-89 | a confirmed write stores the block; no other block changes either way |
| Swap.AreaSwap.LeerBloque | kernel_memory/src/memoria_usuario.c:92-99 | a confirmed read returns the block |
| Swap.AreaSwap.GuardarSegmento | kernel_memory/src/memoria_usuario.c:308-347 | the first free blocks, exactly as many as needed, are taken in order and hold the segment, no block in use is rewritten; a refusal restores the bitmap; with enough free blocks counted beforehand the scan never runs short |
| Swap.AreaSwap.CopiarBuffer | kernel_memory/src/memoria_usuario.c:322-347 | the first-fit pass puts consecutive blocks of the buffer in free blocks |
| Swap.AreaSwap.DeshacerReserva | kernel_memory/src/memoria_usuario.c:340-344 | the blocks of a failed copy, the refused one included, are unmarked: the bitmap is as before |
| Swap.AreaSwap.LiberarBloques | kernel_memory/src/memoria_usuario.c:354-359 | the blocks of the given segments are unmarked and no others |
| Swap.AreaSwap.RecuperarSegmento | kernel_memory/src/memoria_usuario.c:431-435 | the blocks are read in order and released, also when a read fails |
| Swap.TechoExacto | kernel_memory/src/memoria_usuario.c:311-311 | the blocks hold the segment with less than one block of padding |
| Swap.SegsMarcados | kernel_memory/src/memoria_usuario.c:430-435 | under block ownership every block named by a suspended segment is marked |
| Tesela.DevolverReserva | kernel_memory/src/memoria_usuario.c:411-421 | giving back a tentative placement restores the set of free bytes and the free total |
| Tesela.HuecosDeEnOrden | kernel_memory/src/memoria_usuario.c:370-376 | freeing a table appends one hole per segment, with its base and limit, in table order |
| Tesela.SuspenderPertenencia | kernel_memory/src/memoria_usuario.c:338-378 | after a suspension a block is marked if and only if exactly one entry owns it |
| Tesela.GuardadoEstable | kernel_memory/src/memoria_usuario.c:323-335 | block writes to free blocks do not change what any process has in swap |
| Tesela.NecesariosCaben | kernel_memory/src/memoria_usuario.c:282-286 | the block count is at most the memory total |
| Restauracion.ReservaDisjunta | kernel_memory/src/memoria_usuario.c:406-424 | the ranges chosen for a returning process were free and do not overlap |
| Restauracion.RestaurarVista | kernel_memory/src/memoria_usuario.c:428-449 | the restore loop changes no other process, and appends as many segments as were in swap; with every request answered, their ids, limits and contents in order |
| Restauracion.MoldeRestaurado | kernel_memory/src/memoria_usuario.c:428-449 | whatever was read, the segments brought back have the ids and lengths saved |
| Restauracion.CambiarEnVista | kernel_memory/src/memory_stick.c:115-148 | bytes that change only inside one segment change that stretch of that segment of that process and nothing else |
| Restauracion.MismaResolucion | cpu/src/mmu.c:46-83 | translation needs only ids and lengths: bases do not decide which accesses are accepted |
| Vistas.LibreReportado | kernel_memory/src/memoria_usuario.c:197-202 | the reported free memory is the memory minus what the processes hold in it |
| Compactacion.Ordenar | kernel_memory/src/memoria_usuario.c:205-219 | a permutation of the segments sorted by base |
| Compactacion.DestinoAntesDeBase | kernel_memory/src/memoria_usuario.c:222-246 | the packed destination never passes the base of a remaining non-empty segment |
| Compactacion.DestinoEnMemoria | kernel_memory/src/memoria_usuario.c:222-246 | the packed destination never passes the memory total |
| Compactacion.EscrituraNoPisa | kernel_memory/src/memoria_usuario.c:235-236 | writing a segment at its destination changes no other segment's bytes, packed or still to move |
| Compactacion.PasoMover | kernel_memory/src/memoria_usuario.c:226-245 | moving one segment keeps every segment's bytes although it may overlap its own old place |
| Compactacion.TablasIguales | kernel_memory/src/memoria_usuario.c:224-246 | after the loop every table shows the contents it had |
| Compactacion.OrdenDeBases | kernel_memory/src/memoria_usuario.c:219-246 | non-empty segments keep their relative order in memory |
| Compactacion.CoberturaFinal | kernel_memory/src/memoria_usuario.c:222-252 | after the loop the segments cover exactly the addresses from 0 to the sum of their limits |
| Compactacion.SumaMismaForma | kernel_memory/src/memoria_usuario.c:224-246 | moving segments does not change how many bytes they hold |
| MaquinaAbstracta.PasoAjeno | kernel_memory/src/memoria_usuario.c:135-487 | a request on one process never changes the store of another |
| MaquinaAbstracta.ContenidoConstante | kernel_memory/src/memoria_usuario.c:261-455 | over any run, whatever fails on other processes, and however often this one is suspended or compacted or, with every request answered, brought back, what it owns does not change |
| MaquinaAbstracta.Privado | kernel_memory/src/memoria_usuario.c:135-487 | over any run of requests on other processes, failed ones included, a process's store stays as it was |
| MaquinaAbstracta.IdaYVuelta | kernel_memory/src/memoria_usuario.c:261-455 | suspended and later brought back with every request answered, with anything on other processes in between, failures included: same ids, limits and contents in the same order, nothing left in swap |
| MaquinaAbstracta.LoEscritoSeLee | cpu/src/mmu.c:35-99 | a read of a range written before, through moves, suspensions and other processes' requests, answers the bytes written, or nothing when the hardware refuses it |
| Efectos.CompactarEfecto | kernel_memory/src/memoria_usuario.c:209-260 | the abstract machine is the same before and after a completed slide |
| Efectos.SuspenderEfecto | kernel_memory/src/memoria_usuario.c:261-383 | copy, release and list entry together are one suspension step, keeping tiling and block ownership |
| Efectos.DessuspenderEfecto | kernel_memory/src/memoria_usuario.c:385-455 | placement, restore and removal together are one de-suspension step when every request is answered, and otherwise the failure that loses only the bytes that were in swap of that process |
| Efectos.FinalizarEfecto | kernel_memory/src/memoria_usuario.c:457-487 | the process disappears and the others keep their stores |
| Efectos.EscribirEfecto | cpu/src/mmu.c:72-85 | a write through the translation changes that stretch of that segment of that process and nothing else |
| Efectos.EscribirReal | kernel_memory/src/memory_stick.c:115-148 | a translated write, accepted or refused half way, is a step of the abstract machine or its failure confined to the stretch being written |
| Efectos.LeerEfecto | cpu/src/mmu.c:72-85 | a read through the translation returns that stretch of the segment |
| Efectos.AccesoRechazado | cpu/src/mmu.c:41-83 | an access without segment or past its limit changes nothing |
| MemoriaUsuario.KernelMemory.BuscarContexto | kernel_memory/src/contexto.c:54-62 | the first context of that pid |
| MemoriaUsuario.KernelMemory.BuscarProcesoSwap | kernel_memory/src/memoria_usuario.c:102-108 | the first suspended process of that pid |
| MemoriaUsuario.KernelMemory.BuscarHueco | kernel_memory/src/memoria_usuario.c:112-116 | the hole chosen by the configured policy: the first of the smallest that fit, or the first of the largest |
| MemoriaUsuario.KernelMemory.ContextoCrear | kernel_memory/src/contexto.c:18-51 | a new process has an empty table and changes nobody else |
| MemoriaUsuario.KernelMemory.StickAgregar | kernel_memory/src/memory_stick.c:21-33 | the tiling extends to the new memory, which joins the last hole when it touches it, and no process notices |
| MemoriaUsuario.KernelMemory.ConectarSticks | kernel_memory/src/huecos.c:11-26 | while nothing is allocated the memory of any number of sticks is one hole, so any size up to the total fits |
| MemoriaUsuario.KernelMemory.SegmentoCrear | kernel_memory/src/memoria_usuario.c:135-172 | OK exactly when the size is within the maximum, the process known and some hole large enough; ERROR exactly when over the maximum, unknown or over the free total; COMPACTAR otherwise; OK appends one segment at the start of the chosen hole, which shrinks in place or leaves; duplicates of an id are accepted |
| MemoriaUsuario.KernelMemory.SegmentoEliminar | kernel_memory/src/memoria_usuario.c:174-195 | the first segment of that id leaves the table and its range is appended to the holes; false changes nothing |
| MemoriaUsuario.KernelMemory.MemoriaLibreTotal | kernel_memory/src/memoria_usuario.c:197-202 | the memory minus what the processes hold in it |
| MemoriaUsuario.KernelMemory.Compactar | kernel_memory/src/memoria_usuario.c:209-260 | when true: no view changes, address order kept, segments packed from 0, one hole at most; always true when every request is answered; when false the holes are not rebuilt |
| MemoriaUsuario.KernelMemory.Deslizar | kernel_memory/src/memoria_usuario.c:221-246 | the loop packs every segment and keeps its bytes |
| MemoriaUsuario.KernelMemory.MoverSegmento | kernel_memory/src/memoria_usuario.c:225-245 | one iteration: already in place, or read, written and only then its base updated |
| MemoriaUsuario.KernelMemory.CrearCompactando | kernel_memory/src/handlers.c:188-226 | ERROR first only in the three cases above; after a completed compaction the retry answers OK if and only if the size is positive or some byte is free |
| MemoriaUsuario.KernelMemory.ProcesoSuspender | kernel_memory/src/memoria_usuario.c:261-383 | all or nothing: on failure tables, holes, entries and bitmap are as before; on success the table is empty, its ranges are free, and exactly the needed blocks are taken; when all answer it fails only without swap, process or blocks |
| MemoriaUsuario.KernelMemory.ContarBloques | kernel_memory/src/memoria_usuario.c:282-286 | the sum of the blocks each segment needs, in an int |
| MemoriaUsuario.KernelMemory.CopiarASwap | kernel_memory/src/memoria_usuario.c:303-365 | phase one copies every segment without touching tables or RAM, or gives every block back |
| MemoriaUsuario.KernelMemory.LiberarTabla | kernel_memory/src/memoria_usuario.c:370-376 | phase two: the ranges become holes in table order and the table is emptied |
| MemoriaUsuario.KernelMemory.ProcesoDessuspender | kernel_memory/src/memoria_usuario.c:385-455 | unknown in swap: true and nothing changes; some segment without hole: false, same free bytes, same everything else; otherwise the table gains the segments in previously free ranges, the blocks are released, and the contents are the saved ones if all requests are answered |
| MemoriaUsuario.KernelMemory.AsignarTentativa | kernel_memory/src/memoria_usuario.c:404-425 | places segments one by one, each in the hole the policy chooses among those left, without compacting; on failure every hole left was smaller than the segment that failed, and the ranges taken come back as holes of their own after the others, so the free bytes are restored |
| MemoriaUsuario.KernelMemory.CopiarDesdeSwap | kernel_memory/src/memoria_usuario.c:427-444 | segments are restored and recorded in order, their blocks released |
| MemoriaUsuario.KernelMemory.RestaurarSegmento | kernel_memory/src/memoria_usuario.c:431-437 | the padding of the last block is dropped; results of reads and the write are ignored; nothing outside the segment is written |
| MemoriaUsuario.KernelMemory.ProcesoFinalizar | kernel_memory/src/memoria_usuario.c:457-487 | ranges and blocks of the process become free and the process is forgotten; an unknown pid changes nothing |
| MemoriaUsuario.KernelMemory.LiberarSwap | kernel_memory/src/memoria_usuario.c:472-484 | the entry, if any, disappears with its blocks |
| MemoriaUsuario.KernelMemory.EscribirLogico | kernel_memory/src/handlers.c:254-270 | a write for a device changes the stretch of the segment its address names, in the process's own store, or when refused at most that stretch of it |
| MemoriaUsuario.KernelMemory.LeerLogico | kernel_memory/src/handlers.c:272-291 | a read for a device answers the bytes of the segment its address names, in the process's own store, or nothing |
| Accesos.SiguenValidas | cpu/src/memoria.c:139-271 | moves, restores, writes and new sticks leave every CPU's table right, however old |
| Accesos.EscribirPorCpu | cpu/src/ciclo_instruccion.c:220-257 | through a CPU whose table of sticks is partial or stale, a write changes the stretch of the segment its address names, in the process's own store, or when refused at most that stretch of it |
| Accesos.LeerPorCpu | cpu/src/ciclo_instruccion.c:179-217 | through such a CPU, a read answers the bytes of the segment its address names, in the process's own store, or nothing |
| Corridas.Atender | kernel_memory/src/handlers.c:149-300 | each request served is one step of the abstract machine, or one of its failures when the hardware may fail; it goes on serving unless a compaction was aborted |
| Corridas.Ejecutar | kernel_memory/src/handlers.c:149-300 | whatever the hardware does, any sequence of requests without an aborted compaction is a run of the abstract machine to its end, and up to that point otherwise; untouched processes keep their stores in all of them, moved ones their contents |
| Planificacion.MoverUbica | kernel_scheduler/src/main.c:746-758 | leaving one list for the end, or the front, of the one of the new state keeps every process exactly once in the right list |
| Invariantes.SiempreHayProceso | kernel_scheduler/src/main.c:762-778 | past the three semaphores there is a ready process and a free CPU: the branch without process is never taken |
| Invariantes.PlanificarInv | kernel_scheduler/src/main.c:760-807 | dispatch keeps the invariant |
| Invariantes.DesconectarInv | kernel_scheduler/src/main.c:974-1008 | losing a CPU, free or busy, keeps the invariant |
| Invariantes.FinIoInv | kernel_scheduler/src/main.c:1323-1346 | the end of an I/O wakes a process that waited for nothing else |
| Invariantes.DessuspenderHastaInv | kernel_scheduler/src/main.c:1532-1558 | the loop over the sorted list tries each suspended process once while the list shrinks under it |
| Invariantes.LockInv | kernel_scheduler/src/main.c:1847-1880 | a lock keeps the invariant: the requester owns the mutex, or waits for it and only for it |
| Invariantes.UnlockInv | kernel_scheduler/src/main.c:1882-1942 | an unlock, by anyone, keeps the invariant: the heir stops waiting and is woken once |
| Invariantes.CederHastaInv | kernel_scheduler/src/main.c:1098-1145 | after the loop the dead process owns nothing: each of its mutexes was handed over or freed |
| Invariantes.TerminarInv | kernel_scheduler/src/main.c:1010-1096 | the end of a process keeps the invariant |
| Invariantes.CompactarInv | kernel_scheduler/src/main.c:1205-1226 | the pause keeps the invariant: the process is pending for the compaction only and its CPU is reserved |
| Invariantes.FinCompactacionInv | kernel_scheduler/src/main.c:1684-1704 | the resume keeps the invariant |
| Invariantes.MayorEsMinima | kernel_scheduler/src/main.c:1800-1809 | the -1 convention is sound: -1 exactly for an empty queue, otherwise the least waiting priority |
| Prioridades.MejorEsMinimo | kernel_scheduler/src/main.c:1827-1845 | what is given back is the least of the original priority and those of all waiters on the mutexes still owned |
| Prioridades.UnlockRestaura | kernel_scheduler/src/main.c:1899-1937 | unlocking one's own mutex leaves every process without mutexes at its original priority |
| Prioridades.TerminarRestaura | kernel_scheduler/src/main.c:1098-1145 | so does the death of an owner |
| Prioridades.UnlockAjeno | kernel_scheduler/src/main.c:1899-1937 | unlocking another's mutex breaks restoration if and only if the dispossessed owner had inherited and keeps no other mutex |
| Herencia.LockExactaSii | kernel_scheduler/src/main.c:1861-1879 | a lock keeps inheritance exact if and only if the owner does not itself wait for a mutex whose owner has a worse priority than the inherited one |
| Herencia.SinAnidarNoCorta | kernel_scheduler/src/main.c:1867-1873 | when no waiting process owns a mutex no lock breaks exactness |
| Herencia.UnlockExacta | kernel_scheduler/src/main.c:1882-1942 | unlocking one's own mutex keeps inheritance exact for the caller, the heir and everyone else |
| Herencia.TerminarExacta | kernel_scheduler/src/main.c:1098-1145 | the death of an owner keeps inheritance exact |
| Ejecuciones.PasoInv | kernel_scheduler/src/main.c:679-1942 | every step keeps placement, single wake-up source, CPU and semaphore conservation, mutex order and live owners |
| Ejecuciones.Alcanzable | kernel_scheduler/src/main.c:679-1942 | the invariant holds in every reachable state |
| Ejecuciones.NuncaPeorQueLaOriginal | kernel_scheduler/src/main.c:1811-1845 | in every run of every algorithm, whoever unlocks, no priority is worse than the original; without multilevel queues none changes |
| Ejecuciones.PrioridadesRestauradas | kernel_scheduler/src/main.c:1811-1845 | in every multilevel run with owner-only unlocking the owners of nothing have their original priority |
| Ejecuciones.PrioridadesExactas | kernel_scheduler/src/main.c:1800-1942 | in every such run in which no lock cuts a chain, each priority is the least of the original and those of all waiters on the mutexes owned |
| Ejecuciones.ExactasSinAnidar | kernel_scheduler/src/main.c:1800-1942 | in particular when no waiting process ever owns a mutex |
| Equidad.UnSoloLugar | kernel_scheduler/src/main.c:730-887 | in every reachable state a live process is once in the list of its state, in no other, and pending in one place if blocked and in none otherwise |
| Equidad.CadaListaLosSuyos | kernel_scheduler/src/main.c:679-758 | in every reachable state each list holds exactly the processes of its state, a ready one in the queue of its priority or, out of range, in the list that is never planned |
| Equidad.TurnoRespetado | kernel_scheduler/src/main.c:1847-1942 | in every run the t-th waiter of a mutex is later either still queued, closer by exactly the grants made, or was granted it in its turn |
| Equidad.CorridaProlonga | kernel_scheduler/src/main.c:1098-1145 | requests and grants of a mutex are only ever appended, also across owner deaths |
| Exclusion.PasoMutexes | kernel_scheduler/src/main.c:1772-1942 | what every event does to every mutex: a running process takes it if free and waits last otherwise, an unlock and the end of the owner hand it to the first waiter or free it, nothing else touches it |
| Exclusion.DuenoHastaQueSuelta | kernel_scheduler/src/main.c:1847-1942 | over runs, an owner keeps its mutex until someone unlocks it or it ends |
| Turnos.PasoTurnos | kernel_scheduler/src/main.c:679-728 | in every step those who stay in a ready queue keep their order; whoever enters stands behind all of them, or ahead of all when a CPU gives it back during a compaction; only the head leaves by dispatch, others only by inheritance |
| Turnos.PrimeroEnLlegar | kernel_scheduler/src/main.c:679-822 | over runs, whoever is ahead of another in a ready queue stays ahead for as long as it is in it, whatever the other does, unless a CPU gives that one back during a compaction |
| Turnos.NadieSeAdelanta | kernel_scheduler/src/main.c:760-822 | so no dispatch takes the other from that queue first |
| Turnos.EntrarEnReady | kernel_scheduler/src/main.c:679-715 | entering READY: last in the queue of the priority, or in the list that is never planned; one interrupt, to the first running process of the worst priority, exactly when queues preempt and that is strictly worse |
| Turnos.PasoCpus | kernel_scheduler/src/main.c:762-782 | free CPUs keep their order, one that becomes free goes last, the first is the one used |
| Turnos.IoPorOrden | kernel_scheduler/src/main.c:1264-1384 | in every run and for every kind of device, those served are those who asked for that kind, in the order in which they asked, and the rest wait in that order |
| Turnos.PausaPorCampos | kernel_scheduler/src/main.c:1205-1226 | the pause field by field: the process blocked with its CPU reserved, planning stopped, one interrupt for each of the others in order, nothing else changed |
| Relojes.BloqueadoConReloj | kernel_scheduler/src/main.c:1244-1262 | in every reachable state a blocked process that does not wait for a compaction has its suspension timer armed: when it fires the process becomes suspended, and an old quantum does nothing to it |
| Relojes.DespachoConReloj | kernel_scheduler/src/main.c:782-805 | a dispatched process runs on the first free CPU, with a quantum on it exactly when its queue is round robin |
| Rondas.RondaPorPrioridad | kernel_scheduler/src/main.c:1517-1559 | every suspended and ready process is asked for once, those of better priority, or of equal priority and suspended earlier, first; exactly those accepted become ready, nothing else changes |
| Rondas.RondaTrasIo | kernel_scheduler/src/main.c:1323-1346 | the same round when the I/O of a suspended process ends, which takes part with that time |
| Rondas.VuelveElPreferido | kernel_scheduler/src/main.c:1517-1559 | when only the first request is accepted, no suspended and ready process is preferred to the one that comes back |
| Equidad.CuandoPlanifica | kernel_scheduler/src/main.c:760-764 | the planner can act exactly when there is no compaction, a CPU is free and a queue is not empty |
| Equidad.DespachoOrdenado | kernel_scheduler/src/main.c:778-822 | each dispatch takes the head of the best queue, every process in queue i has priority i, none has a better one, none during a compaction |
| Equidad.AvisoAlPeor | kernel_scheduler/src/main.c:688-709 | queueing interrupts if and only if preemption is on and a running process is strictly worse; then one running process of the worst priority, on its CPU |
| Equidad.TodosAvisados | kernel_scheduler/src/main.c:1212-1222 | pausing for a compaction sends an interrupt to every process still running, on its CPU |
| Equidad.CpuPropia | kernel_scheduler/src/main.c:778-782 | two running processes never share a CPU, and it is neither free nor reserved |
| Equidad.CpuEnUnLugar | kernel_scheduler/src/main.c:974-1052 | a connected CPU is free, or runs a process, or is reserved, and only one of the three |
| Equidad.ErrorBloqueaParaSiempre | kernel_scheduler/src/main.c:1418-1429 | once a device answers a process with an error, it is live and blocked in every later state: no event wakes it |
| Equidad.BloqueadoPorAlgo | kernel_scheduler/src/main.c:730-887 | in every reachable state a blocked process is queued for a mutex or an I/O, being served, or waiting for the compaction, unless a device once answered it with an error |
| Ejemplos.CadenaCortada | kernel_scheduler/src/main.c:1867-1873 | in the state after a concrete beginning, the next lock cuts a chain of inheritance |
| Ejemplos.HerenciaInexacta | kernel_scheduler/src/main.c:1861-1879 | a concrete run from the empty system, in which nobody unlocks anything, whose last lock leaves inheritance inexact |
| Ejemplos.PrioridadNoDevuelta | kernel_scheduler/src/main.c:1882-1942 | a concrete run from the empty system whose last event, a foreign unlock, leaves a process without mutexes at an inherited priority |
| Planificador.KernelScheduler.constructor | kernel_scheduler/src/main.c:352-385 | empty lists, every ready queue among them, no mutexes, semaphores 0, 0 and 1, pid 0 next |
| Planificador.KernelScheduler.BuscarEnExec | kernel_scheduler/src/main.c:1950-1956 | found exactly when the process is running on a CPU |
| Planificador.KernelScheduler.BuscarPorPid | kernel_scheduler/src/main.c:1958-1994 | found exactly when the process is alive and not in the out-of-range list |
| Planificador.KernelScheduler.EncolarEnReady | kernel_scheduler/src/main.c:679-715 | appended to the queue of its priority, or to the out-of-range list; the answer says which |
| Planificador.KernelScheduler.DesalojarPeor | kernel_scheduler/src/main.c:688-709 | at most one interrupt, to the worst running process when strictly worse |
| Planificador.KernelScheduler.CrearProceso | kernel_scheduler/src/main.c:653-677 | a fresh pid is spent; a created process ends in its ready list, one Kernel Memory refuses nowhere |
| Planificador.KernelScheduler.ManejarInitProc | kernel_scheduler/src/main.c:1722-1764 | as creation, for a running caller only |
| Planificador.KernelScheduler.ObtenerCola | kernel_scheduler/src/main.c:809-822 | the first non-empty queue in priority order |
| Planificador.KernelScheduler.PlanificadorCortoPlazo | kernel_scheduler/src/main.c:760-807 | one dispatch; a timer only for round-robin queues |
| Planificador.KernelScheduler.HiloQuantum | kernel_scheduler/src/main.c:824-844 | only the process's current timer interrupts it |
| Planificador.KernelScheduler.HiloSuspension | kernel_scheduler/src/main.c:850-887 | only a process still blocked on that wait becomes suspended |
| Planificador.KernelScheduler.AtenderCpu | kernel_scheduler/src/main.c:906-921 | a new CPU is free and counted |
| Planificador.KernelScheduler.Desconectar | kernel_scheduler/src/main.c:974-1008 | a free CPU is uncounted; a busy one returns its process to READY |
| Planificador.KernelScheduler.ManejarFinQuantum | kernel_scheduler/src/main.c:1147-1183 | back to READY, ahead of its queue during a compaction, and the CPU is freed |
| Planificador.KernelScheduler.BloquearProceso | kernel_scheduler/src/main.c:1244-1262 | blocked, CPU freed, suspension timer armed |
| Planificador.KernelScheduler.ManejarIo | kernel_scheduler/src/main.c:1402-1416 | blocked and queued for the device type |
| Planificador.KernelScheduler.TomarPedidoIo | kernel_scheduler/src/main.c:1371-1384 | the oldest request goes into service |
| Planificador.KernelScheduler.ManejarFinIo | kernel_scheduler/src/main.c:1323-1346 | woken to READY, or to SUSP_READY followed by a round of de-suspensions; after an error nothing wakes it |
| Planificador.KernelScheduler.IntentarDessuspender | kernel_scheduler/src/main.c:1527-1559 | in order of priority and suspension time, each accepted one becomes READY |
| Planificador.OrdenarSuspendidos | kernel_scheduler/src/main.c:1517-1525 | the same processes sorted by priority, then suspension time |
| Planificador.KernelScheduler.ManejarMutexCreate | kernel_scheduler/src/main.c:1772-1798 | a free mutex, unless the name exists |
| Planificador.KernelScheduler.AplicarHerencia | kernel_scheduler/src/main.c:1811-1825 | raised to the best waiting priority, re-queued if READY |
| Planificador.KernelScheduler.DevolverPrioridadDe | kernel_scheduler/src/main.c:1827-1845 | recomputed over the mutexes still owned |
| Planificador.KernelScheduler.ManejarMutexLock | kernel_scheduler/src/main.c:1847-1880 | takes a free mutex; otherwise queues, the owner inherits, and blocks |
| Planificador.KernelScheduler.ManejarMutexUnlock | kernel_scheduler/src/main.c:1882-1942 | the first waiter gets it, inherits and wakes; the caller's priority is recomputed |
| Planificador.KernelScheduler.ManejarProcesoExit | kernel_scheduler/src/main.c:1010-1052 | the process disappears, its mutexes are handed over, its CPU is freed; the segmentation-fault handler is the same step |
| Planificador.KernelScheduler.LiberarMutexDelProceso | kernel_scheduler/src/main.c:1098-1145 | each mutex of the dead process goes to its first waiter or becomes free |
| Planificador.KernelScheduler.PausarParaCompactar | kernel_scheduler/src/main.c:1205-1226 | planning stops, the process blocks with its CPU reserved, every other running process is interrupted |
| Planificador.KernelScheduler.ReanudarTrasCompactar | kernel_scheduler/src/main.c:1684-1704 | the waiting process runs again on its reserved CPU and planning resumes |

## Left out

- Swap.AreaSwap.Registrar: one registration, with a positive block size and nobody suspended; a block size that is not positive makes a later suspension divide by it, and registering again forgets blocks that suspended processes still name.
- MemoriaUsuario.KernelMemory.StickAgregar: total memory below 2^32 bytes; the program adds the sizes without checking.
- MemoriaUsuario.KernelMemory.ProcesoSuspender: the count of blocks and the offset of each segment's last block fit an int, and each limit plus one block fits 32 bits (`Suspendible`); below 2^31 bytes of memory they always do, and past those bounds the program's arithmetic overflows.
- MemoriaUsuario.KernelMemory.ContarBloques: the same bounds.
- MemoriaUsuario.KernelMemory.CopiarASwap: the same bounds.
- Corridas.Ejecutar: memory below 2^32 bytes, and below 2^31 in runs that suspend some process; nothing is claimed past an aborted compaction.
- MemoriaUsuario.KernelMemory.ProcesoDessuspender: whether it succeeds is stated through the greedy placement tried, not through the existence of some placement, which the program does not look for.
- MemoriaUsuario.KernelMemory.EscribirLogico: accesses whose limit check does not wrap; `LimiteExacto` says exactly what the others do.
- MemoriaUsuario.KernelMemory.LeerLogico: the same restriction as writes.
- Accesos.EscribirPorCpu: the same restriction; COPY_MEM is one read and one write.
- Accesos.LeerPorCpu: the same restriction.
- MemoriaUsuario.KernelMemory.ContextoCrear: pids are fresh, as the scheduler hands them out; the program does not check.
- MemoriaUsuario.KernelMemory.Compactar: when it returns false only the absence of a rebuild and the shape of the tables are stated; a half-moved memory and stale holes are what the program leaves behind.
- MemoriaUsuario.KernelMemory.CrearCompactando: the request loop retries whatever compaction answered; nothing is stated after an aborted one.
- Planificador.KernelScheduler.Desconectar: not the CPU reserved for a process waiting for a compaction, whose structure the program would free while still holding it.
- Planificador.KernelScheduler.AtenderCpu: sockets of connected CPUs are distinct.
- Planificador.KernelScheduler.ReanudarTrasCompactar: the end of a compaction is announced only after one was asked for.
- Thread interleavings: each handler is one atomic step. The program releases its list mutex inside some handlers, so nothing is claimed for other interleavings, nor for the window between interrupting the CPUs and confirming the compaction.
- While compacting no CPU is running: an assumption the program also makes.
- Physical addresses kept by STDIN and STDOUT across a block: a move or a swap in between makes them stale in the program.
- NEW and EXIT: a process passes through them inside one step, so the list of new processes is always empty between steps.
- Process records are entries of a map by pid, segments are positions in tables: pids are never reused, and aliasing of the C structures is not modelled.
- Timers are the kind of timer a process points to and, for a quantum, its CPU; a timer it no longer points to does nothing. Durations and delays are not modelled.
- `list_sort` is any insertion that yields a sorted permutation; ties among empty segments or equal suspension times may be ordered differently.
- Stick disconnection, BSOD, SWAP reconnection and shutdown: terminal cases.
- Registers, instructions, scripts, sockets, handshakes, configuration and logs: plumbing without memory or scheduling state.
- Stdin, stdout and sleep data, sizes and times: only the request and its outcome matter to the scheduler.
