/** What one sender and one receiver see of a channel: a slot that is empty, holds a message,
    or holds the count its receiver reported.  Module Channel proves that chan.c behaves like
    this, module Sieve is written on top of it, and module SieveProgram connects the two. */
module Rendezvous {
  datatype Slot<T> = Empty | Full(msg: T) | Taken(count: nat)
}
