/** The records of the search result (`Coordenada`, `HemocentroProximo`).
    TypeScript numbers are modelled as reals; the integer ids of the source
    elements only reach this record already printed as strings. */
module Hemocentro {

  /** A point given by latitude and longitude, in degrees. */
  datatype Coordenada = Coordenada(latitude: real, longitude: real)

  /** One donation point of the search result. */
  datatype HemocentroProximo = HemocentroProximo(
    id: string,
    nomeHemocentro: string,
    tipo: string,
    endereco: string,
    latitude: real,
    longitude: real,
    distanciaKm: real)
}
